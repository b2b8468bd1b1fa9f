/** What every operation of an endpoint keeps: references, and that tree membership tracks
    closure.  The messages that arrive are arbitrary. */
module Safety {
  import opened Endpoint
  import opened References

  /** The direction bits never change; a state is in a tree exactly while it is not closed in
      both directions; then it is on its parent's queue, and when it has left the tree it is on
      the queue only until the message that closed it is cleaned up. */
  ghost predicate Tracks(e: End, t: Name)
    requires t in e.states
  {
    var s := e.states[t];
    if t.Root? then !s.tx.del else
      && s.tx.reply == (t.side != e.me) && s.rx.reply == (t.side == e.me)
      && s.inTree == !(s.tx.del && s.rx.del) && (t.side != e.me ==> s.rx.create)
      && (s.inTree ==> s.inSubq) && (s.inSubq && !s.inTree ==> t in e.cur)
  }

  ghost predicate Closure(e: End) {
    forall t {:trigger e.states[t]} :: t in e.states ==> Tracks(e, t)
  }

  ghost predicate Sound(e: End) { RefOk(e, NONE) && Closure(e) }

  /** The open transactions, with the bits of both directions. */
  datatype Bits = Bits(tx: Cmd, rx: Cmd)

  ghost function Alive(e: End): map<Name, Bits> {
    map t | t in e.states && e.states[t].inTree :: Bits(e.states[t].tx, e.states[t].rx)
  }

  /** The bits of one transaction change, or it is closed. */
  ghost function Become(alive: map<Name, Bits>, t: Name, b: Bits): map<Name, Bits> {
    if b.tx.del && b.rx.del then alive - {t} else alive[t := b]
  }

  lemma FrameAlive(e: End, e': End, t: Name, b: Bits)
    requires Frame(e, e', t) && t.Name?
    requires t in e'.states ==> e'.states[t].inTree == !(b.tx.del && b.rx.del) && Bits(e'.states[t].tx, e'.states[t].rx) == b
    requires t !in e'.states ==> b.tx.del && b.rx.del
    ensures Alive(e') == Become(Alive(e), t, b)
  {}

  /** No state but `t` is new. */
  ghost predicate NoNew(e: End, e': End, t: Name) { e'.states.Keys <= e.states.Keys + {t} }

  lemma FrameKeys(e: End, e': End, t: Name)
    ensures Frame(e, e', t) ==> NoNew(e, e', t)
    ensures SameBits(e, e') ==> e'.states.Keys <= e.states.Keys
  {}

  lemma FrameClosure(e: End, e': End, t: Name)
    requires Closure(e) && Frame(e, e', t) && (t in e'.states ==> Tracks(e', t))
    requires forall u {:trigger u in e'.cur} :: u in e.cur && u != t ==> u in e'.cur
    ensures Closure(e')
  {
    forall u {:trigger e'.states[u]} | u in e'.states ensures Tracks(e', u) {
      if u != t {
        assert Tracks(e, u);
      }
    }
  }

  /** What an operation on state `t` in progress has kept so far. */
  ghost predicate Going(e0: End, e: End, t: Name, n: nat) {
    && RefOk(e, Hand(t, n, Root, 0)) && Frame(e0, e, t) && t in e.states
    && e.me == e0.me && e.txmsgq == e0.txmsgq && e.cur == e0.cur
  }

  lemma GoHold(e0: End, e: End, t: Name, n: nat)
    requires Going(e0, e, t, n)
    ensures Hold(e, t).Ok? && Going(e0, Hold(e, t).value, t, n + 1)
    ensures Hold(e, t).value.states[t] == e.states[t].(refs := Hold(e, t).value.states[t].refs)
  {
    hide RefOk, Hold, Frame;
    HoldOk(e, Hand(t, n, Root, 0), t);
    FrameSame(e, Hold(e, t).value, t);
    FrameTrans(e0, e, Hold(e, t).value, t);
    HoldStays(e, t);
  }

  lemma HoldStays(e: End, t: Name)
    requires t in e.states
    ensures t in Hold(e, t).value.states && Hold(e, t).value.states[t] == e.states[t].(refs := Hold(e, t).value.states[t].refs)
  {}

  lemma GoDrop(e0: End, e: End, t: Name, n: nat)
    requires Going(e0, e, t, n) && n > 1
    ensures Drop(e, t).Ok? && Going(e0, Drop(e, t).value, t, n - 1)
    ensures Drop(e, t).value.states[t] == e.states[t].(refs := Drop(e, t).value.states[t].refs)
  {
    hide RefOk, Drop, Frame, Live;
    DropOk(e, Hand(t, n, Root, 0), t);
    FrameSame(e, Drop(e, t).value, t);
    FrameTrans(e0, e, Drop(e, t).value, t);
  }

  lemma GoSet(e0: End, e: End, t: Name, n: nat, tx: Cmd, rx: Cmd)
    requires Going(e0, e, t, n) && (tx.create || tx == e.states[t].tx)
    ensures Going(e0, Set(e, t, e.states[t].(tx := tx, rx := rx)), t, n + if tx.create then One(Unwritten(e, t)) else 0)
    ensures Going(e0, Set(e, t, e.states[t].(tx := tx, rx := rx)), t, n)
  {
    hide RefOk, Unwritten;
    SetCmdOk(e, Hand(t, n, Root, 0), t, tx, rx);
    var m := n + if tx.create then One(Unwritten(e, t)) else 0;
    Leak(Set(e, t, e.states[t].(tx := tx, rx := rx)), Hand(t, m, Root, 0), n, 0);
  }

  lemma GoTree(e0: End, e: End, t: Name, n: nat)
    requires Going(e0, e, t, n) && t.Name? && e.states[t].inTree
    ensures var r := TreeRemove(e, t, t.side != e.me);
      r.Ok? && Going(e0, r.value, t, n + 1) && r.value.states[t] == e.states[t].(inTree := false)
  {
    hide RefOk, TreeRemove, Frame;
    TreeRemoveOk(e, Hand(t, n, Root, 0), t);
    FrameTrans(e0, e, TreeRemove(e, t, t.side != e.me).value, t);
  }

  lemma GoSubq(e0: End, e: End, t: Name, n: nat)
    requires Going(e0, e, t, n) && t.Name? && n > 0
    ensures var r := SubqDelete(e, t);
      r.Ok? && Going(e0, r.value, t, n) && SameCmds(r.value.states[t], e.states[t]) && !r.value.states[t].inSubq
  {
    hide RefOk, SubqDelete, Frame;
    SubqDeleteOk(e, Hand(t, n, Root, 0), t);
    FrameTrans(e0, e, SubqDelete(e, t).value, t);
  }

  /** A sent message: its bits follow those of the transmit direction. */
  lemma CleanupTxOk(e0: End, e: End, t: Name, cmd: Cmd, n: nat)
    requires n > 0 && Going(e0, e, t, n) && t.Name? && e.states[t].inTree && e.states[t].inSubq
    requires e.states[t].tx.create && !e.states[t].tx.del && cmd.reply == e.states[t].tx.reply == (t.side != e.me)
    ensures var r := CleanupTx(e, t, cmd);
      && r.Ok? && Going(e0, r.value, t, n)
      && r.value.states[t].tx == e.states[t].tx.(del := cmd.del) && r.value.states[t].rx == e.states[t].rx
      && r.value.states[t].inTree == r.value.states[t].inSubq == !(cmd.del && e.states[t].rx.del)
  {
    hide RefOk, Frame, Drop, SubqDelete, TreeRemove, Hold, Unwritten;
    GoHold(e0, e, t, n);
    var e1 := Hold(e, t).value;
    var s1 := e1.states[t];
    if !cmd.del {
      GoDrop(e0, e1, t, n + 1);
    } else {
      var e2 := Set(e1, t, s1.(tx := s1.tx.(del := true)));
      GoSet(e0, e1, t, n + 1, s1.tx.(del := true), s1.rx);
      if s1.rx.del {
        GoTree(e0, e2, t, n + 1);
        var e3 := TreeRemove(e2, t, s1.tx.reply).value;
        GoSubq(e0, e3, t, n + 2);
        var e4 := SubqDelete(e3, t).value;
        GoDrop(e0, e4, t, n + 2);
        GoDrop(e0, Drop(e4, t).value, t, n + 1);
      } else {
        GoDrop(e0, e2, t, n + 1);
      }
    }
  }

  lemma Start(e: End, t: Name, n: nat)
    requires RefOk(e, Hand(t, n, Root, 0)) && t in e.states
    ensures Going(e, e, t, n)
  {
    FrameSame(e, e, t);
  }

  /** `dmsg_msg_write` on an open transaction. */
  lemma WriteOk(e: End, t: Name, cmd: Cmd)
    requires t in e.states && t.Name? && !e.states[t].tx.del
    requires RefOk(e, Hand(t, 1 - One(Unwritten(e, t)), Root, 0)) && Closure(e)
    requires cmd.create == !e.states[t].tx.create && cmd.reply == e.states[t].tx.reply
    ensures var r := Write(e, t, cmd);
      && r.Ok? && Sound(r.value) && r.value.me == e.me && r.value.cur == e.cur && r.value.txmsgq == e.txmsgq + [Header(e, t, cmd)]
      && Alive(r.value) == Become(Alive(e), t, Bits(e.states[t].tx.(create := true, del := cmd.del), e.states[t].rx))
      && NoNew(e, r.value, t)
  {
    hide RefOk, Frame, CleanupTx, Unwritten, Alive, Become;
    var s := e.states[t];
    assert Tracks(e, t);
    var tx := if cmd.create then cmd.(del := false) else s.tx;
    assert tx == s.tx.(create := true);
    var e1 := Set(e, t, s.(tx := tx));
    Start(e, t, 1 - One(Unwritten(e, t)));
    GoSet(e, e, t, 1 - One(Unwritten(e, t)), tx, s.rx);
    CleanupTxOk(e, e1, t, cmd, 1);
    var e2, m := CleanupTx(e1, t, cmd).value, Header(e, t, cmd);
    EnqueueOk(e2, Hand(t, 1, Root, 0), m);
    var e3 := e2.(txmsgq := e2.txmsgq + [m]);
    Empty(e3, Hand(t, 0, Root, 0), t);
    FrameQueue(e, e2, e3, t);
    FrameClosure(e, e3, t);
    FrameAlive(e, e3, t, Bits(s.tx.(create := true, del := cmd.del), s.rx));
    FrameKeys(e, e3, t);
  }

  lemma FrameQueue(e: End, e2: End, e3: End, t: Name)
    requires Frame(e, e2, t) && e3.states == e2.states && e3.me == e2.me
    ensures Frame(e, e3, t)
  {}

  /** Sending keeps everything, and nothing in it can fail. */
  lemma SendOk(e: End, t: Name, del: bool)
    requires Sound(e) && t in e.states && t.Name?
    ensures var r := Send(e, t, del);
      && r.Ok? && Sound(r.value) && r.value.me == e.me && r.value.cur == e.cur && r.value.states.Keys <= e.states.Keys
      && (e.states[t].tx.del ==> r.value == e)
      && (!e.states[t].tx.del ==>
        && r.value.txmsgq == e.txmsgq + [Header(e, t, Cmd(!e.states[t].tx.create, del, e.states[t].tx.reply))]
        && Alive(r.value) == Become(Alive(e), t, Bits(e.states[t].tx.(create := true, del := del), e.states[t].rx)))
  {
    hide RefOk, Write, Alive, Become;
    if !e.states[t].tx.del {
      var cmd := Cmd(!e.states[t].tx.create, del, e.states[t].tx.reply);
      Empty(e, NONE, t);
      if Unwritten(e, t) {
        WriteOk(e, t, cmd);
      } else {
        HoldOk(e, Hand(t, 0, Root, 0), t);
        var e1 := Hold(e, t).value;
        SameSound(e, e1);
        FrameKeys(e, e1, t);
        WriteOk(e1, t, cmd);
      }
    }
  }

  lemma SameSound(e: End, e1: End)
    requires SameBits(e, e1)
    ensures Closure(e) ==> Closure(e1)
    ensures Alive(e1) == Alive(e)
  {
    if Closure(e) {
      forall u {:trigger e1.states[u]} | u in e1.states ensures Tracks(e1, u) {
        assert Tracks(e, u);
      }
    }
  }

  /** Opening a transaction under any existing state, with a msgid that is not in use. */
  lemma OpenOk(e: End, p: Name, serial: nat, id: nat)
    requires Sound(e) && p in e.states && id !in e.statewr && Name(e.me, serial, id, p) !in e.states
    ensures var r, t := Open(e, p, serial, id), Name(e.me, serial, id, p);
      && r.Ok? && Sound(r.value) && r.value.me == e.me && r.value.cur == e.cur && r.value.txmsgq == e.txmsgq && t in r.value.states
      && Alive(r.value) == Become(Alive(e), t, Bits(Cmd(false, false, false), Cmd(false, false, true))) && NoNew(e, r.value, t)
  {
    hide RefOk, Alive, Become;
    var t, s := Name(e.me, serial, id, p), St(Cmd(false, false, false), Cmd(false, false, true), true, true, {}, 0);
    InsertOk(e, t, s);
    var e1 := Insert(e, t, s).value;
    Empty(e1, Hand(t, 0, Root, 0), t);
    FrameClosure(e, e1, t);
    FrameAlive(e, e1, t, Bits(s.tx, s.rx));
    FrameKeys(e, e1, t);
  }

  /** The I/O thread may always free what it has sent. */
  lemma FlushOk(e: End)
    requires Sound(e)
    ensures var r := Flush(e);
      && r.Ok? && Sound(r.value) && r.value.me == e.me && r.value.cur == e.cur && Alive(r.value) == Alive(e)
      && r.value.txmsgq == (if e.txmsgq == [] then [] else e.txmsgq[1..]) && r.value.states.Keys <= e.states.Keys
  {
    hide RefOk, Alive, Drop;
    if e.txmsgq != [] {
      var t, e1 := e.txmsgq[0].ref, e.(txmsgq := e.txmsgq[1..]);
      DequeueOk(e, NONE);
      DropOk(e1, Hand(t, 1, Root, 0), t);
      var e2 := Drop(e1, t).value;
      Empty(e2, Hand(t, 0, Root, 0), t);
      QueueOnly(e, e1);
      SameSound(e1, e2);
      FrameKeys(e1, e2, t);
    }
  }

  lemma QueueOnly(e: End, e1: End)
    requires e1.states == e.states && e1.me == e.me && e1.cur == e.cur
    ensures Closure(e) ==> Closure(e1)
    ensures Alive(e1) == Alive(e)
  {
    if Closure(e) {
      forall u {:trigger e1.states[u]} | u in e1.states ensures Tracks(e1, u) {
        assert Tracks(e, u);
      }
    }
  }

  /** A message outside of any transaction changes no transaction. */
  lemma SendOneOffOk(e: End, reply: bool)
    requires Sound(e)
    ensures var r := SendOneOff(e, reply);
      && r.Ok? && Sound(r.value) && r.value.me == e.me && r.value.cur == e.cur && Alive(r.value) == Alive(e)
      && r.value.txmsgq == e.txmsgq + [Header(e, Root, Cmd(false, false, reply))] && r.value.states.Keys <= e.states.Keys
  {
    hide RefOk, Alive, Drop, Hold, Frame;
    var cmd := Cmd(false, false, reply);
    assert Root in e.states && Tracks(e, Root) && !e.states[Root].inTree by {
      RootThere(e, NONE);
    }
    Start(e, Root, 0);
    GoHold(e, e, Root, 0);
    var e1 := Hold(e, Root).value;
    assert Set(e1, Root, e1.states[Root]) == e1;
    GoHold(e, e1, Root, 1);
    var e2 := Hold(e1, Root).value;
    GoDrop(e, e2, Root, 2);
    var e3, m := Drop(e2, Root).value, Header(e, Root, cmd);
    EnqueueOk(e3, Hand(Root, 1, Root, 0), m);
    var e4 := e3.(txmsgq := e3.txmsgq + [m]);
    assert SendOneOff(e, reply) == Ok(e4);
    FrameQueue(e, e3, e4, Root);
    FrameClosure(e, e4, Root);
    FrameRoot(e, e4);
    FrameKeys(e, e4, Root);
  }

  lemma RootThere(e: End, h: Hand)
    requires RefOk(e, h)
    ensures Root in e.states && !e.states[Root].inTree
  {}

  lemma FrameRoot(e: End, e': End)
    requires Frame(e, e', Root)
    requires Root in e.states ==> !e.states[Root].inTree
    requires Root in e'.states ==> !e'.states[Root].inTree
    ensures Alive(e') == Alive(e)
  {}

  // ---------------------------------------------------------------- receive

  ghost function FindState(e: End, m: Msg): Name { Find(if m.revtrans then e.statewr else e.staterd, m.id) }

  ghost function FindCircuit(e: End, m: Msg): Name {
    if m.circuit == 0 then Root else Find(if m.revcirc then e.statewr else e.staterd, m.circuit)
  }

  /** The circuit of a message is gone. */
  ghost predicate NoCircuit(e: End, m: Msg) { m.circuit != 0 && FindCircuit(e, m) == Root }

  /** The message fits the state of its transaction; the only thing about an endpoint that
      its assertions depend on. */
  ghost predicate Fits(e: End, m: Msg) {
    var p, t := FindCircuit(e, m), FindState(e, m);
    if t == Root then
      if m.cmd.create && !m.cmd.reply
      then Name(Other(e.me), Serial(m.ref), m.id, p) !in e.states && m.id !in e.staterd
      else !m.cmd.create && !m.cmd.del && p == Root
    else
      && t in e.states && p == t.parent && FitsState(e.states[t], m.cmd)
  }

  ghost predicate FitsState(s: St, cmd: Cmd) {
    && (cmd.create ==> cmd.reply && s.rx.reply)
    && (cmd.del && !cmd.create ==> s.rx.create && !s.rx.del)
    && (cmd.del && s.tx.del ==> s.rx.reply == cmd.reply)
  }

  /** The receive bits after a message. */
  function Advance(rx: Cmd, cmd: Cmd): Cmd {
    if cmd.create then cmd else rx.(del := rx.del || cmd.del)
  }

  /** State `t` is there, with these bits, and on its queue still; no other state changed. */
  ghost predicate Received(e: End, e': End, t: Name, tx: Cmd, rx: Cmd) {
    && Frame(e, e', t) && t in e'.states && e'.states[t].tx == tx && e'.states[t].rx == rx && e'.states[t].inSubq
  }

  /** DELETE closes the receive direction. */
  lemma RxDeleteOk(e0: End, e: End, t: Name, cmd: Cmd)
    requires Going(e0, e, t, 1) && Closure(e0) && t.Name?
    requires e.states[t].inTree == e.states[t].inSubq == true && !(e.states[t].tx.del && e.states[t].rx.del)
    requires e.states[t].tx.reply == (t.side != e.me) && e.states[t].rx.reply == (t.side == e.me) &&
      (t.side != e.me ==> e.states[t].rx.create)
    ensures var r, s := RxDelete(e, t, cmd), e.states[t];
      var fits := cmd.del ==> !s.rx.del && (s.tx.del ==> s.rx.reply == cmd.reply);
      && (r.Ok? <==> fits) && !r.Discard?
      && (r.Ok? ==>
        && Sound(r.value) && r.value.me == e0.me && r.value.txmsgq == e0.txmsgq && r.value.cur == e0.cur + [t]
        && Alive(r.value) == Become(Alive(e0), t, Bits(s.tx, s.rx.(del := s.rx.del || cmd.del))) && NoNew(e0, r.value, t)
        && Received(e0, r.value, t, s.tx, s.rx.(del := s.rx.del || cmd.del)))
  {
    hide RefOk, Alive, Become, Drop, TreeRemove, Frame, Unwritten;
    var s := e.states[t];
    var e1 := e;
    if cmd.del && !s.rx.del {
      GoSet(e0, e, t, 1, s.tx, s.rx.(del := true));
      e1 := Set(e, t, s.(rx := s.rx.(del := true)));
      if s.tx.del && s.rx.reply == cmd.reply {
        GoTree(e0, e1, t, 1);
        var e2 := TreeRemove(e1, t, !s.rx.reply).value;
        GoDrop(e0, e2, t, 2);
        e1 := Drop(e2, t).value;
      }
    }
    if RxDelete(e, t, cmd).Ok? {
      assert RxDelete(e, t, cmd) == Ok(e1.(cur := e1.cur + [t]));
      var e2 := e1.(cur := e1.cur + [t]);
      StartOk(e1, Hand(t, 1, Root, 0), t);
      Empty(e2, Hand(t, 0, Root, 0), t);
      FrameQueue(e0, e1, e2, t);
      FrameClosure(e0, e2, t);
      FrameAlive(e0, e2, t, Bits(s.tx, s.rx.(del := s.rx.del || cmd.del)));
      FrameKeys(e0, e2, t);
    }
  }

  lemma FoundInTree(e: End, m: Msg)
    requires Trees(e) && Links(e)
    ensures FindState(e, m) != Root ==>
      var t := FindState(e, m);
      t in e.states && e.states[t].inTree && t.side == (if m.revtrans then e.me else Other(e.me)) && t.id == m.id
    ensures FindCircuit(e, m) in e.states
  {
    var t, p := FindState(e, m), FindCircuit(e, m);
    if t != Root {
      assert InTreeAs(e, t, if m.revtrans then e.me else Other(e.me), m.id);
    }
    if p != Root {
      assert InTreeAs(e, p, if m.revcirc then e.me else Other(e.me), m.circuit);
    }
  }

  /** Holding and dropping only moves the counts. */
  lemma HoldDropRoot(e: End)
    requires Sound(e)
    ensures Hold(e, Root).Ok? && SameBits(e, Hold(e, Root).value) && RefOk(Hold(e, Root).value, NONE)
    ensures var r := Drop(Hold(e, Root).value, Root); r.Ok? && SameBits(e, r.value) && RefOk(r.value, NONE)
  {
    hide Links, Trees, Counted, Hold, Drop;
    RootThere(e, NONE);
    HoldOk(e, NONE, Root);
    var e0 := Hold(e, Root).value;
    DropOk(e0, Hand(Root, 1, Root, 0), Root);
    SameTrans(e, e0, Drop(e0, Root).value);
    Leak(e0, Hand(Root, 1, Root, 0), 0, 0);
  }

  lemma SameTrans(e: End, e1: End, e2: End)
    requires SameBits(e, e1) && SameBits(e1, e2)
    ensures SameBits(e, e2)
  {}

  /** `dmsg_state_msgrx` on a transaction that exists. */
  lemma RxKnownOk(e: End, e1: End, t: Name, cmd: Cmd)
    requires Sound(e) && SameBits(e, e1) && RefOk(e1, NONE) && t in e.states && t.Name? && e.states[t].inTree && t in e1.states
    ensures Hold(e1, t).Ok? && t in Hold(e1, t).value.states && Hold(e1, t).value.states[t].inSubq
    ensures var r, s := RxKnown(Hold(e1, t).value, t, cmd), e.states[t];
      && (r.Ok? <==> FitsState(s, cmd)) && !r.Discard?
      && (r.Ok? ==>
        && Sound(r.value) && r.value.me == e.me && r.value.txmsgq == e.txmsgq && r.value.cur == e.cur + [t]
        && Alive(r.value) == Become(Alive(e), t, Bits(s.tx, Advance(s.rx, cmd))) && NoNew(e, r.value, t)
        && Received(e, r.value, t, s.tx, Advance(s.rx, cmd)))
  {
    hide RefOk, Alive, Become, Frame, Unwritten, RxDelete;
    var s := e.states[t];
    assert Tracks(e, t);
    Empty(e1, NONE, t);
    FrameSame(e, e1, t);
    assert Going(e, e1, t, 0);
    GoHold(e, e1, t, 0);
    var e2 := Hold(e1, t).value;
    var rx := if cmd.create then cmd.(del := false) else s.rx;
    GoSet(e, e2, t, 1, s.tx, rx);
    var e3 := Set(e2, t, e2.states[t].(rx := rx));
    if !(cmd.create && (!cmd.reply || s.rx.reply != cmd.reply)) && !(!cmd.create && cmd.del && !s.rx.create) {
      if !cmd.create {
        assert e3.states == e2.states;
      }
      RxDeleteOk(e, e3, t, cmd);
      assert RxKnown(e2, t, cmd) == RxDelete(e3, t, cmd);
    }
  }

  /** `dmsg_state_msgrx` on a message that opens a transaction. */
  lemma RxCreateOk(e: End, e0: End, p: Name, m: Msg)
    requires Sound(e) && SameBits(e, e0) && RefOk(e0, NONE) && p in e0.states && m.cmd.create && !m.cmd.reply
    ensures var r, t := RxUnknown(e0, p, m), Name(Other(e.me), Serial(m.ref), m.id, p);
      && (r.Ok? <==> t !in e0.states && m.id !in e.staterd) && !r.Discard?
      && (r.Ok? ==>
        && Sound(r.value) && r.value.me == e.me && r.value.txmsgq == e.txmsgq && r.value.cur == e.cur + [t]
        && Alive(r.value) == Become(Alive(e), t, Bits(Cmd(false, false, true), m.cmd)) && NoNew(e, r.value, t))
  {
    hide RefOk, Alive, Become, Frame, RxDelete, Insert;
    var t, s := Name(Other(e.me), Serial(m.ref), m.id, p), St(Cmd(false, false, true), m.cmd.(del := false), true, true, {}, 0);
    Empty(e0, NONE, p);
    HoldOk(e0, Hand(p, 0, Root, 0), p);
    var e1 := Hold(e0, p).value;
    Leak(e1, Hand(p, 1, Root, 0), 0, 0);
    Empty(e1, Hand(p, 0, Root, 0), t);
    InsertFits(e1, t, s);
    if t !in e1.states && IdFree(e1, t) {
      InsertOk(e1, t, s);
      var e2 := Insert(e1, t, s).value;
      SameTrans(e, e0, e1);
      FrameSame(e, e1, t);
      FrameTrans(e, e1, e2, t);
      RxDeleteOk(e, e2, t, m.cmd);
    }
  }

  lemma InsertFits(e: End, t: Name, s: St)
    requires t.Name? && t.parent in e.states
    ensures Insert(e, t, s).Ok? <==> t !in e.states && IdFree(e, t)
    ensures !Insert(e, t, s).Discard?
  {}

  /** A one-off message: it fits only on circuit 0. */
  lemma RxOneOffOk(e: End, p: Name, m: Msg)
    requires Sound(e) && !(m.cmd.create && !m.cmd.reply)
    ensures Hold(e, Root).Ok?
    ensures var r := RxUnknown(Hold(e, Root).value, p, m);
      && (r.Ok? <==> !m.cmd.create && !m.cmd.del && p == Root) && !r.Discard?
      && (r.Ok? ==>
        && Sound(r.value) && r.value.me == e.me && r.value.txmsgq == e.txmsgq && r.value.cur == e.cur + [Root]
        && Alive(r.value) == Alive(e) && NoNew(e, r.value, Root))
  {
    hide RefOk, Alive, Frame, Hold;
    RootThere(e, NONE);
    HoldOk(e, NONE, Root);
    var e0 := Hold(e, Root).value;
    var e1 := e0.(cur := e0.cur + [Root]);
    StartOk(e0, Hand(Root, 1, Root, 0), Root);
    Empty(e1, Hand(Root, 0, Root, 0), Root);
    SameSound(e, e0);
    CurMore(e0, e1);
    FrameKeys(e, e0, Root);
  }

  lemma CurMore(e: End, e1: End)
    requires e1.states == e.states && e1.me == e.me && e.cur <= e1.cur
    ensures Closure(e) ==> Closure(e1)
    ensures Alive(e1) == Alive(e)
  {
    if Closure(e) {
      forall u {:trigger e1.states[u]} | u in e1.states ensures Tracks(e1, u) {
        assert Tracks(e, u);
      }
    }
  }

  /** The bits and queues after a message that was taken in. */
  ghost predicate TakenIn(e: End, m: Msg, e': End) {
    var p, t := FindCircuit(e, m), FindState(e, m);
    && e'.me == e.me && e'.txmsgq == e.txmsgq
    && if t != Root then
         && t in e.states && NoNew(e, e', t) && e'.cur == e.cur + [t]
         && Alive(e') == Become(Alive(e), t, Bits(e.states[t].tx, Advance(e.states[t].rx, m.cmd)))
       else if m.cmd.create then
         var u := Name(Other(e.me), Serial(m.ref), m.id, p);
         && NoNew(e, e', u) && e'.cur == e.cur + [u] && Alive(e') == Become(Alive(e), u, Bits(Cmd(false, false, true), m.cmd))
       else NoNew(e, e', Root) && e'.cur == e.cur + [Root] && Alive(e') == Alive(e)
  }

  /** Whatever arrives: a message is thrown away if its circuit is gone; otherwise the only
      assertions that can fail are those on the message's own bits.  If none does, everything
      is kept; in particular no reference is ever missing. */
  lemma MsgRxOk(e: End, m: Msg)
    requires Sound(e)
    ensures var r := MsgRx(e, m);
      && (r.Discard? <==> NoCircuit(e, m)) && (r.Ok? <==> !NoCircuit(e, m) && Fits(e, m))
      && (r.Discard? ==> Sound(r.value) && r.value.me == e.me && r.value.txmsgq == e.txmsgq)
      && (r.Discard? ==> r.value.cur == e.cur && Alive(r.value) == Alive(e))
      && (r.Ok? ==> Sound(r.value) && TakenIn(e, m, r.value))
  {
    hide RefOk, Alive, Become, RxKnown, RxUnknown, Hold, Drop, Live;
    HoldDropRoot(e);
    FoundThere(e, m);
    var e0 := Hold(e, Root).value;
    var e1 := Drop(e0, Root).value;
    var p, t := FindCircuit(e, m), FindState(e, m);
    if NoCircuit(e, m) {
      SameSound(e, e1);
    } else if t == Root {
      if m.cmd.create && !m.cmd.reply {
        HoldKeys(e);
        assert p in e0.states.Keys;
        RxCreateOk(e, e0, p, m);
        assert Name(Other(e.me), Serial(m.ref), m.id, p) in e0.states.Keys <==> Name(Other(e.me), Serial(m.ref), m.id, p) in e.states.Keys;
      } else {
        RxOneOffOk(e, p, m);
      }
    } else {
      RxKnownOk(e, e1, t, m.cmd);
    }
  }

  lemma HoldKeys(e: End)
    requires Root in e.states
    ensures Hold(e, Root).value.states.Keys == e.states.Keys
  {}

  lemma FoundThere(e: End, m: Msg)
    requires RefOk(e, NONE)
    ensures FindState(e, m) != Root ==> FindState(e, m) in e.states && e.states[FindState(e, m)].inTree
    ensures FindCircuit(e, m) in e.states && Root in e.states
  {
    FoundInTree(e, m);
  }

  /** When a callback has returned, its message is freed; a state that is closed leaves its
      parent's queue. */
  lemma CleanupRxOk(e: End)
    requires Sound(e)
    ensures var r := CleanupRx(e);
      && r.Ok? && Sound(r.value) && r.value.me == e.me && r.value.txmsgq == e.txmsgq && Alive(r.value) == Alive(e)
      && r.value.cur == (if e.cur == [] then [] else e.cur[1..]) && r.value.states.Keys <= e.states.Keys
  {
    hide RefOk, Alive, Frame, Drop, SubqDelete, Live;
    if e.cur != [] {
      var t, e1 := e.cur[0], e.(cur := e.cur[1..]);
      FinishOk(e, NONE);
      InHandThere(e1, t);
      assert Tracks(e, t);
      var s := e.states[t];
      Start(e1, t, 1);
      var e2, n := e1, 1;
      if t.Name? && s.inSubq && s.rx.del && s.tx.del {
        GoSubq(e1, e1, t, 1);
        e2 := SubqDelete(e1, t).value;
      }
      DropOk(e2, Hand(t, 1, Root, 0), t);
      var e3 := Drop(e2, t).value;
      Empty(e3, Hand(t, 0, Root, 0), t);
      FrameSame(e2, e3, t);
      FrameTrans(e1, e2, e3, t);
      Popped(e, e3, t);
      FrameClosure(e, e3, t);
      FrameKeys(e, e3, t);
    }
  }

  lemma InHandThere(e: End, t: Name)
    requires RefOk(e, Hand(t, 1, Root, 0))
    ensures t in e.states
  {}

  lemma Popped(e: End, e3: End, t: Name)
    requires e.cur != [] && t == e.cur[0] && t in e.states && Frame(e.(cur := e.cur[1..]), e3, t)
    requires t in e3.states ==> SameCmds(e3.states[t], e.states[t])
    requires t !in e3.states ==> !e.states[t].inTree
    ensures Frame(e, e3, t) && Alive(e3) == Alive(e)
  {}
}
