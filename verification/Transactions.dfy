/** Two endpoints joined by FIFO channels. */
module Transactions {
  import opened Endpoint
  import opened References
  import opened Safety
  import opened Session

  /** The two ends and the bytes on the wire, as messages. */
  datatype System = System(a: End, b: End, ab: seq<Msg>, ba: seq<Msg>)

  function EndOf(y: System, s: Side): End { if s == B then y.b else y.a }

  function Wire(y: System, s: Side): seq<Msg> { if s == B then y.ba else y.ab }

  function Put(y: System, s: Side, e: End): System { if s == B then y.(b := e) else y.(a := e) }

  function PutWire(y: System, s: Side, q: seq<Msg>): System { if s == B then y.(ba := q) else y.(ab := q) }

  /** One action of one side: open a transaction, send on one, send a one-off message, put the
      first queued message on the wire, take in the next message, clean up after one. */
  datatype Step =
    | Opens(s: Side, p: Name, serial: nat, id: nat)
    | Sends(s: Side, t: Name, del: bool)
    | OneOff(s: Side, reply: bool)
    | Flushes(s: Side)
    | Receives(s: Side)
    | CleansUp(s: Side)

  function Next(y: System, step: Step): (r: Result<System>) {
    var s, e := step.s, EndOf(y, step.s);
    match step
    case Opens(_, p, serial, id) => var e1 :- Lift(y, s, Open(e, p, serial, id)); Ok(e1)
    case Sends(_, t, del) => var e1 :- Lift(y, s, Send(e, t, del)); Ok(e1)
    case OneOff(_, reply) => var e1 :- Lift(y, s, SendOneOff(e, reply)); Ok(e1)
    case Flushes(_) =>
      if e.txmsgq == [] then Ok(y) else Lift(PutWire(y, s, Wire(y, s) + [e.txmsgq[0]]), s, Flush(e))
    case Receives(_) =>
      if Wire(y, Other(s)) == [] then Ok(y) else Lift(PutWire(y, Other(s), Wire(y, Other(s))[1..]), s, MsgRx(e, Wire(y, Other(s))[0]))
    case CleansUp(_) => Lift(y, s, CleanupRx(e))
  }

  function Lift(y: System, s: Side, r: Result<End>): Result<System> {
    match r
    case Ok(e) => Ok(Put(y, s, e))
    case Discard(e) => Discard(Put(y, s, e))
    case Fault => Fault
  }

  // ---------------------------------------------------------------- what is demanded of the clients

  /** A serial number is a name that has not been given away yet. */
  ghost predicate NewSerial(y: System, s: Side, serial: nat) {
    && (forall u {:trigger u in y.a.states} :: u in y.a.states && u.Name? && u.side == s ==> u.serial < serial)
    && (forall u {:trigger u in y.b.states} :: u in y.b.states && u.Name? && u.side == s ==> u.serial < serial)
    && (forall j {:trigger Out(y, s)[j]} ::
      0 <= j < |Out(y, s)| && Out(y, s)[j].ref.Name? && Out(y, s)[j].ref.side == s ==> Out(y, s)[j].ref.serial < serial)
    && (forall j {:trigger Out(y, Other(s))[j]} ::
      0 <= j < |Out(y, Other(s))| && Out(y, Other(s))[j].ref.Name? && Out(y, Other(s))[j].ref.side == s ==>
        Out(y, Other(s))[j].ref.serial < serial)
  }

  /** The msgid is the address of the new state: not null, and of no state that still exists. */
  ghost predicate NewId(e: End, id: nat) {
    id != 0 && forall u {:trigger u in e.states} :: u in e.states && u.Name? && u.side == e.me ==> u.id != id
  }

  /** A transaction is opened under one that this side has not closed. */
  predicate MayOpen(e: End, p: Name) {
    p in e.states && (p.Root? || (!e.states[p].tx.del && (p.side == e.me ==> e.states[p].tx.create)))
  }

  /** A side sends DELETE when what it has itself opened under the transaction is closed: it is
      in no tree any more, or this side has closed its direction and the peer's DELETE is under
      way, with none for the outer transaction before it. */
  ghost predicate MayClose(y: System, s: Side, t: Name) { OthersClosed(View(y, s, {}), t) }

  /** All that side opened under `t`, except what is in `skip`, is closed or settles. */
  ghost predicate OthersClosed(d: Dir, t: Name) {
    forall u {:trigger u in d.mine} :: u in d.mine && Own(d, u) && u.parent == t ==> u in d.skip || Settling(d, u)
  }

  /** What a caller can see: nothing that this side opened under `t` is in a tree. */
  predicate NoneBelow(e: End, t: Name) {
    forall u {:trigger u in e.states} :: u in e.states && u.Name? && u.side == e.me && u.parent == t ==> !e.states[u].inTree
  }

  lemma NoneBelowIsEnough(y: System, s: Side, t: Name)
    requires NoneBelow(EndOf(y, s), t) && EndOf(y, s).me == s
    ensures MayClose(y, s, t)
  {}

  ghost predicate Disciplined(y: System, step: Step) {
    var e := EndOf(y, step.s);
    match step
    case Opens(s, p, serial, id) => NewSerial(y, s, serial) && NewId(e, id) && MayOpen(e, p)
    case Sends(s, t, del) => t in e.states && t.Name? && (del && !e.states[t].tx.del ==> MayClose(y, s, t))
    case _ => true
  }

  /** The same, except for the transactions in `x`: they are opened anywhere, and their own side
      sends nothing on them. */
  ghost predicate Allowed(y: System, x: set<Name>, step: Step) {
    var e := EndOf(y, step.s);
    match step
    case Opens(s, p, serial, id) => NewSerial(y, s, serial) && NewId(e, id) &&
      p in e.states && (MayOpen(e, p) || Name(s, serial, id, p) in x)
    case Sends(s, t, del) =>
      t in e.states && t.Name? && (t.side == s ==> t !in x) && (del && !e.states[t].tx.del ==> OthersClosed(View(y, s, x), t))
    case _ => true
  }

  // ---------------------------------------------------------------- the invariant

  /** What side `s` has sent and the other has not received. */
  function Out(y: System, s: Side): seq<Msg> { Wire(y, s) + EndOf(y, s).txmsgq }

  ghost function View(y: System, s: Side, x: set<Name>): Dir {
    Dir(s, Alive(EndOf(y, s)), Alive(EndOf(y, Other(s))), EndOf(y, Other(s)).states.Keys, Out(y, s), Out(y, Other(s)), x)
  }

  ghost predicate Names(e: End) { forall t {:trigger t in e.states} :: t in e.states ==> Proper(t) }

  ghost predicate Inv(y: System) { InvX(y, {}) }

  /** The invariant, but for the parents of the transactions in `x`. */
  ghost predicate InvX(y: System, x: set<Name>) {
    && y.a.me == A && y.b.me == B && Sound(y.a) && Sound(y.b) && Names(y.a) && Names(y.b)
    && Half(View(y, A, x)) && Half(View(y, B, x))
  }

  /** The invariant from the point of view of side `s`. */
  ghost predicate InvAt(y: System, x: set<Name>, s: Side) {
    var e, f := EndOf(y, s), EndOf(y, Other(s));
    && e.me == s && f.me == Other(s) && Sound(e) && Sound(f) && Names(e) && Names(f)
    && Half(View(y, s, x)) && Half(View(y, Other(s), x)) && Mirror(View(y, s, x), View(y, Other(s), x))
  }

  lemma InvSides(y: System, x: set<Name>, s: Side)
    ensures InvX(y, x) <==> InvAt(y, x, s)
  {
    hide Half, Sound, Names, Alive;
  }

  /** Side `s` takes a step that leaves the messages under way and the open transactions alone. */
  lemma SilentStep(y: System, x: set<Name>, y1: System, s: Side)
    requires InvAt(y, x, s) && EndOf(y1, Other(s)) == EndOf(y, Other(s)) && Out(y1, A) == Out(y, A) && Out(y1, B) == Out(y, B)
    requires Sound(EndOf(y1, s)) && EndOf(y1, s).me == s && Alive(EndOf(y1, s)) == Alive(EndOf(y, s))
    requires EndOf(y1, s).states.Keys <= EndOf(y, s).states.Keys
    ensures InvAt(y1, x, s)
  {
    hide Half, Sound, Alive;
    KeysChange(View(y, Other(s), x), EndOf(y1, s).states.Keys);
    assert View(y1, s, x) == View(y, s, x);
    assert View(y1, Other(s), x) == View(y, Other(s), x).(keys := EndOf(y1, s).states.Keys);
    forall t {:trigger t in EndOf(y1, s).states} | t in EndOf(y1, s).states ensures Proper(t) {
      assert t in EndOf(y, s).states;
    }
  }

  lemma FlushStep(y: System, x: set<Name>, s: Side)
    requires InvAt(y, x, s)
    ensures var r := Next(y, Flushes(s)); r.Ok? && InvAt(r.value, x, s)
    ensures var y1 := Next(y, Flushes(s)).value; Out(y1, A) == Out(y, A) && Out(y1, B) == Out(y, B)
    ensures var y1 := Next(y, Flushes(s)).value; Alive(y1.a) == Alive(y.a) && Alive(y1.b) == Alive(y.b)
  {
    hide Half, Sound, Alive, Flush, Mirror;
    var e := EndOf(y, s);
    FlushOk(e);
    if e.txmsgq != [] {
      var y1 := Next(y, Flushes(s)).value;
      assert Out(y1, s) == Out(y, s) by {
        assert e.txmsgq == [e.txmsgq[0]] + e.txmsgq[1..];
      }
      assert Out(y1, Other(s)) == Out(y, Other(s));
      SilentStep(y, x, y1, s);
    }
  }

  lemma CleanupStep(y: System, x: set<Name>, s: Side)
    requires InvAt(y, x, s)
    ensures var r := Next(y, CleansUp(s)); r.Ok? && InvAt(r.value, x, s)
  {
    hide Half, Sound, Alive, CleanupRx, Mirror;
    CleanupRxOk(EndOf(y, s));
    SilentStep(y, x, Next(y, CleansUp(s)).value, s);
  }

  lemma AliveBits(e: End, t: Name)
    requires Sound(e) && t in e.states
    ensures t in Alive(e) <==> e.states[t].inTree
    ensures t in Alive(e) ==> Alive(e)[t] == Bits(e.states[t].tx, e.states[t].rx)
    ensures t in Alive(e) ==> t.Name? && t.parent in e.states && t in e.states[t.parent].subq
    ensures t.Name? && !e.states[t].tx.del ==> t in Alive(e)
    ensures t.Name? ==> e.states[t].tx.reply == (t.side != e.me) && e.states[t].rx.reply == (t.side == e.me)
  {
    assert Tracks(e, t);
  }

  lemma MaySendNow(y: System, x: set<Name>, s: Side, t: Name, del: bool)
    requires InvAt(y, x, s) && Allowed(y, x, Sends(s, t, del)) && !EndOf(y, s).states[t].tx.del
    ensures var e := EndOf(y, s); MaySend(View(y, s, x), Header(e, t, Cmd(!e.states[t].tx.create, del, e.states[t].tx.reply)))
  {
    hide Half, Sound, Alive, Mirror, Settling;
    AliveBits(EndOf(y, s), t);
  }

  lemma AliveIn(e: End, t: Name)
    ensures t in Alive(e) ==> t in e.states
  {}

  lemma SendStep(y: System, x: set<Name>, s: Side, t: Name, del: bool)
    requires InvAt(y, x, s) && Allowed(y, x, Sends(s, t, del))
    ensures var r := Next(y, Sends(s, t, del)); r.Ok? && InvAt(r.value, x, s)
    ensures var e, y1 := EndOf(y, s), Next(y, Sends(s, t, del)).value;
      if e.states[t].tx.del then y1 == y
      else
        var m := Header(e, t, Cmd(!e.states[t].tx.create, del, e.states[t].tx.reply));
        t in View(y, s, x).mine && View(y1, s, x) == AfterSend(View(y, s, x), m)
  {
    hide Half, Sound, Alive, Send, Become, Settling;
    var e := EndOf(y, s);
    SendOk(e, t, del);
    if !e.states[t].tx.del {
      var m := Header(e, t, Cmd(!e.states[t].tx.create, del, e.states[t].tx.reply));
      var y1, e1 := Next(y, Sends(s, t, del)).value, Send(e, t, del).value;
      var d, f := View(y, s, x), View(y, Other(s), x);
      MaySendNow(y, x, s, t, del);
      AliveBits(e, t);
      SendHalf(d, f, m);
      SendOther(d, f, m);
      assert Out(y1, s) == Out(y, s) + [m];
      assert View(y1, s, x) == AfterSend(d, m);
      KeysChange(f.(theirs := AfterSend(d, m).mine, back := AfterSend(d, m).out), e1.states.Keys);
      assert View(y1, Other(s), x) == f.(theirs := AfterSend(d, m).mine, back := AfterSend(d, m).out, keys := e1.states.Keys);
      FewerNames(e, e1, t);
    }
  }

  lemma FewerNames(e: End, e1: End, t: Name)
    requires Names(e) && Proper(t) && NoNew(e, e1, t)
    ensures Names(e1)
  {
    forall u {:trigger u in e1.states} | u in e1.states ensures Proper(u) {
      assert u in e1.states.Keys;
    }
  }

  lemma OneOffStep(y: System, x: set<Name>, s: Side, reply: bool)
    requires InvAt(y, x, s)
    ensures var r := Next(y, OneOff(s, reply)); r.Ok? && InvAt(r.value, x, s)
  {
    hide Half, Sound, Alive, SendOneOff;
    var e, m := EndOf(y, s), Header(EndOf(y, s), Root, Cmd(false, false, reply));
    SendOneOffOk(e, reply);
    var y1, e1 := Next(y, OneOff(s, reply)).value, SendOneOff(e, reply).value;
    var d, f := View(y, s, x), View(y, Other(s), x);
    RootSent(d, m);
    RootReplied(f, m);
    assert View(y1, s, x) == d.(out := d.out + [m]);
    KeysChange(f.(back := f.back + [m]), e1.states.Keys);
    assert View(y1, Other(s), x) == f.(back := f.back + [m], keys := e1.states.Keys);
    FewerNames(e, e1, Root);
  }

  lemma OpenStep(y: System, x: set<Name>, s: Side, p: Name, serial: nat, id: nat)
    requires InvAt(y, x, s) && Allowed(y, x, Opens(s, p, serial, id))
    ensures var r := Next(y, Opens(s, p, serial, id)); r.Ok? && InvAt(r.value, x, s)
    ensures var y1 := Next(y, Opens(s, p, serial, id)).value;
      View(y1, s, x) == View(y, s, x).(mine := View(y, s, x).mine[Name(s, serial, id, p) := Bits(NOTHING, Cmd(false, false, true))])
  {
    hide Half, Sound, Alive, Open;
    var e, t := EndOf(y, s), Name(s, serial, id, p);
    IdUnused(e, id);
    OpenOk(e, p, serial, id);
    var y1, e1 := Next(y, Opens(s, p, serial, id)).value, Open(e, p, serial, id).value;
    var d, f, b := View(y, s, x), View(y, Other(s), x), Bits(NOTHING, Cmd(false, false, true));
    NotSeen(y, x, s, t);
    AliveBits(e, p);
    OpenHalf(d, t);
    OpenOther(f, t, b);
    assert View(y1, s, x) == d.(mine := d.mine[t := b]);
    KeysChange(f.(theirs := f.theirs[t := b]), e1.states.Keys);
    assert View(y1, Other(s), x) == f.(theirs := f.theirs[t := b], keys := e1.states.Keys);
    FewerNames(e, e1, t);
  }

  lemma IdUnused(e: End, id: nat)
    requires Sound(e) && NewId(e, id)
    ensures id !in e.statewr
  {
    LookupSome(e, e.me, id);
    RootNot(e, id);
  }

  lemma NotSeen(y: System, x: set<Name>, s: Side, t: Name)
    requires InvAt(y, x, s) && t.Name? && t.side == s && NewSerial(y, s, t.serial) && NewId(EndOf(y, s), t.id)
    ensures Unseen(View(y, s, x), t) && t !in EndOf(y, s).states
  {
    hide Half, Sound;
    var e, f := EndOf(y, s), EndOf(y, Other(s));
    assert t !in e.states && t !in f.states;
    forall u {:trigger Before(u, t)} | u in Alive(f) ensures Before(u, t) {
      assert u in f.states;
    }
    forall u {:trigger Clash(u, t)} | u in Alive(e) ensures !Clash(u, t) {
      assert u in e.states;
    }
  }

  /** A lookup in the trees finds exactly the open transaction of that side and msgid. */
  lemma Lookup(e: End, t: Name)
    requires Sound(e) && t in Alive(e)
    ensures t.Name? && Find(if t.side == e.me then e.statewr else e.staterd, t.id) == t
  {
    AliveIn(e, t);
    assert e.states[t].inTree;
  }

  lemma LookupSome(e: End, side: Side, id: nat)
    requires Sound(e)
    ensures var t := Find(if side == e.me then e.statewr else e.staterd, id);
      t != Root ==> t in Alive(e) && t in e.states && t.Name? && t.side == side && t.id == id
  {
    var t := Find(if side == e.me then e.statewr else e.staterd, id);
    if t != Root {
      assert InTreeAs(e, t, side, id);
    }
  }

  lemma NextFormed(y: System, x: set<Name>, s: Side)
    requires InvAt(y, x, s) && Out(y, Other(s)) != []
    ensures Formed(Other(s), Out(y, Other(s))[0])
  {
    hide Sound, Alive;
    var f := View(y, Other(s), x);
    assert Formed(f.s, f.out[0]);
  }

  /** The circuit of the next message is closed, although its transaction is not. */
  ghost predicate Stranded(y: System, s: Side)
    requires Out(y, Other(s)) != []
  {
    var m := Out(y, Other(s))[0];
    m.ref.Name? && m.ref.side == s && m.ref.parent.Name? && m.ref.parent !in Alive(EndOf(y, s))
  }

  /** The circuit of the next message is found. */
  lemma CircuitFound(y: System, x: set<Name>, s: Side)
    requires InvAt(y, x, s) && Out(y, Other(s)) != [] && !Stranded(y, s)
    ensures var e, m := EndOf(y, s), Out(y, Other(s))[0];
      !NoCircuit(e, m) && FindCircuit(e, m) == if m.ref.Root? then Root else m.ref.parent
  {
    hide Half, Sound, Alive, Mirror, Names;
    var e, d, f, m := EndOf(y, s), View(y, s, x), View(y, Other(s), x), Out(y, Other(s))[0];
    NextFormed(y, x, s);
    if m.ref.Name? {
      NextMessage(d, f);
      if m.ref.parent.Name? {
        assert Proper(m.ref.parent);
        Lookup(e, m.ref.parent);
      }
    }
  }

  /** Its transaction is found if it is open; if not, the msgid is free. */
  lemma StateFound(y: System, x: set<Name>, s: Side)
    requires InvAt(y, x, s) && Out(y, Other(s)) != []
    ensures var e, m := EndOf(y, s), Out(y, Other(s))[0];
      FindState(e, m) == if m.ref in Alive(e) then m.ref else Root
  {
    hide Sound, Alive;
    var e, d, f, m := EndOf(y, s), View(y, s, x), View(y, Other(s), x), Out(y, Other(s))[0];
    NextFormed(y, x, s);
    var t := FindState(e, m);
    if m.ref.Root? {
      LookupSome(e, Other(s), 0);
      RootDead(e);
    } else if m.ref in Alive(e) {
      Lookup(e, m.ref);
    } else {
      NextMessage(d, f);
      LookupSome(e, m.ref.side, m.ref.id);
      NoOld(d, f, t);
    }
  }

  lemma RootDead(e: End)
    requires Sound(e)
    ensures Root !in Alive(e)
  {}

  /** No assertion fails on the next message, and it is not thrown away. */
  lemma NextFits(y: System, x: set<Name>, s: Side)
    requires InvAt(y, x, s) && Out(y, Other(s)) != [] && !Stranded(y, s)
    ensures var e, m := EndOf(y, s), Out(y, Other(s))[0]; !NoCircuit(e, m) && Fits(e, m)
  {
    hide Half, Sound, Alive, Names, Mirror, FindState, FindCircuit, NoCircuit;
    var e, d, f, m := EndOf(y, s), View(y, s, x), View(y, Other(s), x), Out(y, Other(s))[0];
    CircuitFound(y, x, s);
    StateFound(y, x, s);
    RootDead(e);
    NextFormed(y, x, s);
    if m.ref.Name? {
      NextMessage(d, f);
      if m.ref in Alive(e) {
        AliveIn(e, m.ref);
        AliveBits(e, m.ref);
        GoodBits(d, f, m.ref);
      } else {
        IdNotThere(e, m);
      }
    }
  }

  lemma GoodBits(d: Dir, f: Dir, t: Name)
    requires Half(d) && Half(f) && Mirror(d, f) && t in d.mine && t.Name?
    ensures Good(d.mine[t])
  {
    if t.side == d.s {
      assert Agreed(d, t);
    } else {
      assert Agreed(f, t);
    }
  }

  lemma IdNotThere(e: End, m: Msg)
    requires Sound(e) && FindState(e, m) == Root && !m.revtrans
    ensures m.id !in e.staterd
  {
    RootNot(e, m.id);
  }

  lemma RootNot(e: End, id: nat)
    requires Sound(e)
    ensures (id in e.staterd ==> e.staterd[id] != Root) && (id in e.statewr ==> e.statewr[id] != Root)
  {}

  /** A message whose circuit is closed is thrown away or fails an assertion. */
  lemma StrandedFails(y: System, x: set<Name>, s: Side)
    requires InvAt(y, x, s) && Wire(y, Other(s)) != [] && Stranded(y, s)
    ensures !Next(y, Receives(s)).Ok?
  {
    hide Half, Sound, Alive, MsgRx, Mirror, Names;
    var e, d, f, m := EndOf(y, s), View(y, s, x), View(y, Other(s), x), Out(y, Other(s))[0];
    assert m == Wire(y, Other(s))[0];
    MsgRxOk(e, m);
    NextFormed(y, x, s);
    NextMessage(d, f);
    Lookup(e, m.ref);
    assert Proper(m.ref.parent);
    LookupSome(e, m.ref.parent.side, m.circuit);
    assert FindState(e, m) == m.ref;
    var p := FindCircuit(e, m);
    assert p == Root || p in Alive(e);
  }

  /** None is, unless its transaction is in `x`. */
  lemma NotStranded(y: System, x: set<Name>, s: Side)
    requires InvAt(y, x, s) && Out(y, Other(s)) != [] && Out(y, Other(s))[0].ref !in x
    ensures !Stranded(y, s)
  {
    hide Half, Sound, Alive, Names;
    if Out(y, Other(s))[0].ref.Name? {
      NextMessage(View(y, s, x), View(y, Other(s), x));
    }
  }

  lemma ReceiveStep(y: System, x: set<Name>, s: Side)
    requires InvAt(y, x, s) && (Wire(y, Other(s)) != [] ==> !Stranded(y, s))
    ensures var r := Next(y, Receives(s)); r.Ok? && InvAt(r.value, x, s)
    ensures Wire(y, Other(s)) != [] ==> View(Next(y, Receives(s)).value, s, x) == AfterRecv(View(y, s, x))
  {
    hide Half, Sound, Alive, MsgRx, Become, Fits, NoCircuit, Stranded;
    var e, q := EndOf(y, s), Wire(y, Other(s));
    if q != [] {
      var m := q[0];
      assert Out(y, Other(s))[0] == m;
      NextFits(y, x, s);
      MsgRxOk(e, m);
      var e1, y1 := MsgRx(e, m).value, Next(y, Receives(s)).value;
      var d, f := View(y, s, x), View(y, Other(s), x);
      CircuitFound(y, x, s);
      StateFound(y, x, s);
      TakenView(y, x, s, m, e1);
      assert Out(y1, Other(s)) == Out(y, Other(s))[1..];
      RecvHalf(d, f);
      RecvOther(d, f, e1.states.Keys);
      assert View(y1, s, x) == AfterRecv(d);
      assert View(y1, Other(s), x) == AfterTaken(f, e1.states.Keys);
      FewerNames(e, e1, m.ref);
    }
  }

  lemma TakenView(y: System, x: set<Name>, s: Side, m: Msg, e1: End)
    requires InvAt(y, x, s) && Out(y, Other(s)) != [] && m == Out(y, Other(s))[0]
    requires TakenIn(EndOf(y, s), m, e1) && FindCircuit(EndOf(y, s), m) == (if m.ref.Root? then Root else m.ref.parent)
    requires FindState(EndOf(y, s), m) == if m.ref in Alive(EndOf(y, s)) then m.ref else Root
    ensures Proper(m.ref) && NoNew(EndOf(y, s), e1, m.ref) && Alive(e1) == AfterRecv(View(y, s, x)).mine
    ensures forall u {:trigger u in e1.states.Keys} :: u in e1.states.Keys && u != m.ref ==> u in EndOf(y, s).states
    ensures e1.me == s && e1.txmsgq == EndOf(y, s).txmsgq
  {
    hide Half, Sound, Alive, Become, Names, Mirror, FindState, FindCircuit;
    var e, d, f := EndOf(y, s), View(y, s, x), View(y, Other(s), x);
    NextFormed(y, x, s);
    RootDead(e);
    if m.ref.Name? {
      NextMessage(d, f);
      if m.ref in Alive(e) {
        AliveIn(e, m.ref);
        AliveBits(e, m.ref);
      } else {
        assert Name(Other(e.me), Serial(m.ref), m.id, m.ref.parent) == m.ref;
      }
    }
  }

  /** One step that leaves the transactions in `x` alone keeps the invariant; only a message whose
      circuit is closed can fail. */
  lemma StepKeeps(y: System, x: set<Name>, step: Step)
    requires InvX(y, x) && Allowed(y, x, step)
    ensures var r := Next(y, step); r.Ok? ==> InvX(r.value, x)
    ensures !Next(y, step).Ok? ==> step.Receives? && Wire(y, Other(step.s)) != [] && Stranded(y, step.s)
  {
    hide InvAt, InvX, Next, Allowed, Stranded;
    InvSides(y, x, step.s);
    match step
    case Opens(s, p, serial, id) => OpenStep(y, x, s, p, serial, id); InvSides(Next(y, step).value, x, s);
    case Sends(s, t, del) => SendStep(y, x, s, t, del); InvSides(Next(y, step).value, x, s);
    case OneOff(s, reply) => OneOffStep(y, x, s, reply); InvSides(Next(y, step).value, x, s);
    case Flushes(s) => FlushStep(y, x, s); InvSides(Next(y, step).value, x, s);
    case Receives(s) =>
      if Wire(y, Other(s)) != [] && Stranded(y, s) {
        StrandedFails(y, x, s);
      } else {
        ReceiveStep(y, x, s);
        InvSides(Next(y, step).value, x, s);
      }
    case CleansUp(s) => CleanupStep(y, x, s); InvSides(Next(y, step).value, x, s);
  }

  lemma AllowedToo(y: System, step: Step)
    requires Disciplined(y, step)
    ensures Allowed(y, {}, step)
  {
    hide View, OthersClosed, NewSerial, NewId;
  }

  /** One disciplined step: no assertion fails, no message is thrown away, and the invariant
      is kept. */
  lemma StepSafe(y: System, step: Step)
    requires Inv(y) && Disciplined(y, step)
    ensures var r := Next(y, step); r.Ok? && Inv(r.value)
  {
    hide InvAt, InvX, Next, Stranded, View, Disciplined, Allowed;
    AllowedToo(y, step);
    StepKeeps(y, {}, step);
    if step.Receives? && Wire(y, Other(step.s)) != [] {
      InvSides(y, {}, step.s);
      NotStranded(y, {}, step.s);
    }
  }

  // ---------------------------------------------------------------- runs

  /** An iocom before any message: only the root state. */
  function Fresh(s: Side): End {
    End(s, map[Root := St(NOTHING, NOTHING, false, false, {}, 1)], map[], map[], [], [])
  }

  function Init(): System { System(Fresh(A), Fresh(B), [], []) }

  /** A run ends in a state, with some messages thrown away, or in a failed assertion. */
  datatype Outcome = Ran(end: System, lost: nat) | Failed

  function Exec(y: System, steps: seq<Step>): Outcome
    decreases |steps|
  {
    if steps == [] then Ran(y, 0)
    else
      match Next(y, steps[0])
      case Ok(y1) => Exec(y1, steps[1..])
      case Discard(y1) => (match Exec(y1, steps[1..]) case Ran(end, lost) => Ran(end, lost + 1) case Failed => Failed)
      case Fault => Failed
  }

  ghost predicate Orderly(y: System, steps: seq<Step>)
    decreases |steps|
  {
    steps == [] || (Disciplined(y, steps[0]) && (!Next(y, steps[0]).Fault? ==> Orderly(Next(y, steps[0]).value, steps[1..])))
  }

  lemma FreshSound(s: Side)
    ensures Sound(Fresh(s)) && Names(Fresh(s)) && Alive(Fresh(s)) == map[]
  {
    var e := Fresh(s);
    assert Live(e, Root) == 1;
    assert Trees(e) && Links(e) && Counted(e, NONE);
  }

  lemma InitInv()
    ensures Inv(Init())
  {
    FreshSound(A);
    FreshSound(B);
  }

  /** Over every run that keeps the two rules (`MayClose` and `MayOpen`), no assertion fails and no
      message is thrown away. */
  lemma {:induction false} RunSafe(y: System, steps: seq<Step>)
    requires Inv(y) && Orderly(y, steps)
    ensures Exec(y, steps).Ran? && Exec(y, steps).lost == 0 && Inv(Exec(y, steps).end)
    decreases |steps|
  {
    hide Inv, Next, Disciplined;
    if steps != [] {
      StepSafe(y, steps[0]);
      RunSafe(Next(y, steps[0]).value, steps[1..]);
    }
  }

  /** When nothing is under way, both sides have the same transactions open, at the same stage;
      one that only its opener knows has not been written yet. */
  lemma Quiescent(y: System, s: Side, t: Name)
    requires Inv(y) && Out(y, A) == [] && Out(y, B) == [] && t in Alive(EndOf(y, s)) && t.Name?
    ensures var mine, theirs := Alive(EndOf(y, s)), Alive(EndOf(y, Other(s)));
      if t in theirs then
        && mine[t].tx.create == theirs[t].rx.create && mine[t].tx.del == theirs[t].rx.del
        && mine[t].rx.create == theirs[t].tx.create && mine[t].rx.del == theirs[t].tx.del
      else t.side == s && !mine[t].tx.create
  {
    hide Inv, Alive, Agreed;
    InvAgreed(y, t);
    QuietAgreed(View(y, t.side, {}), t);
  }

  lemma InvAgreed(y: System, t: Name)
    requires Inv(y) && t.Name?
    ensures Agreed(View(y, t.side, {}), t)
  {
    hide Sound, Names, Alive, Agreed;
  }

  lemma QuietAgreed(d: Dir, t: Name)
    requires d.out == [] && d.back == [] && Agreed(d, t)
    ensures t in d.mine && t in d.theirs ==>
      && d.mine[t].tx.create == d.theirs[t].rx.create && d.mine[t].tx.del == d.theirs[t].rx.del
      && d.mine[t].rx.create == d.theirs[t].tx.create && d.mine[t].rx.del == d.theirs[t].tx.del
    ensures t in d.mine && t !in d.theirs ==> !d.mine[t].tx.create
    ensures t in d.theirs ==> t in d.mine
  {}
}
