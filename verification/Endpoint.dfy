/** One end of a dmsg connection: transaction states, the two msgid trees, sub-queues and
    reference counts.  Every assertion of the library is a `Fault` here; nothing is assumed
    about the messages that arrive. */
module Endpoint {
  datatype Side = A | B

  function Other(s: Side): Side { if s == A then B else A }

  /** A transaction state is named by the side that opened it, a serial number (which stands
      for its address), its msgid and the transaction it is stacked under. */
  datatype Name = Root | Name(side: Side, serial: nat, id: nat, parent: Name)

  /** The CREATE, DELETE and REPLY bits of a command word. */
  datatype Cmd = Cmd(create: bool, del: bool, reply: bool)

  datatype St = St(tx: Cmd, rx: Cmd, inTree: bool, inSubq: bool, subq: set<Name>, refs: int)

  /** A message: the sender's state, the bits of its command word, msgid and circuit. */
  datatype Msg = Msg(ref: Name, cmd: Cmd, id: nat, circuit: nat, revtrans: bool, revcirc: bool)

  /** An iocom: its states, the trees of locally and remotely opened ones, the queue of
      messages to send, and the state of the message that is being processed. */
  datatype End = End(me: Side, states: map<Name, St>, statewr: map<nat, Name>, staterd: map<nat, Name>,
                     txmsgq: seq<Msg>, cur: seq<Name>)

  /** The outcome of an operation: a new state, a message that is thrown away, or a failed
      assertion. */
  datatype Result<T> = Ok(value: T) | Discard(value: T) | Fault {
    predicate IsFailure() { !Ok? }
    function PropagateFailure(): Result<T> requires IsFailure() { this }
    function Extract(): T requires !IsFailure() { value }
  }

  function MsgId(t: Name): nat { if t.Root? then 0 else t.id }

  function Serial(t: Name): nat { if t.Root? then 0 else t.serial }

  // ---------------------------------------------------------------- references

  function Set(e: End, t: Name, s: St): End { e.(states := e.states[t := s]) }

  function Hold(e: End, t: Name): (r: Result<End>) {
    if t !in e.states then Fault else Ok(Set(e, t, e.states[t].(refs := e.states[t].refs + 1)))
  }

  /** Drop a reference; the last one frees the state. */
  function Drop(e: End, t: Name): (r: Result<End>) {
    if t !in e.states || e.states[t].refs <= 0 then Fault
    else if e.states[t].refs > 1 then Ok(Set(e, t, e.states[t].(refs := e.states[t].refs - 1)))
    else if t.Root? || e.states[t].inTree || e.states[t].inSubq || e.states[t].subq != {} then Fault
    else Ok(e.(states := e.states - {t}))
  }

  /** Take a state off its parent's queue; the queue holds its owner while it is not empty. */
  function SubqDelete(e: End, t: Name): (r: Result<End>) {
    if t !in e.states || t.Root? then Fault
    else if !e.states[t].inSubq then Ok(e)
    else if t.parent !in e.states || t.parent == t then Fault
    else
      var kids := e.states[t.parent].subq - {t};
      var e1 := Set(e, t, e.states[t].(inSubq := false));
      var e2 := Set(e1, t.parent, e1.states[t.parent].(subq := kids));
      var e3 :- if kids == {} then Drop(e2, t.parent) else Ok(e2);
      Drop(e3, t)
  }

  /** Insert a new state: on its parent's queue and in its tree. */
  function Insert(e: End, t: Name, s: St): (r: Result<End>)
    ensures r.Ok? ==> t in r.value.states
  {
    if t.Root? || t in e.states || t.parent !in e.states then Fault
    else
      var e1 :- if e.states[t.parent].subq == {} then Hold(e, t.parent) else Ok(e);
      var e2 := Set(e1, t.parent, e1.states[t.parent].(subq := e1.states[t.parent].subq + {t}));
      var e3 := Set(e2, t, s.(inTree := true, inSubq := true, subq := {}, refs := 3));
      if t.side == e.me
      then if t.id in e.statewr then Fault else Ok(e3.(statewr := e3.statewr[t.id := t]))
      else if t.id in e.staterd then Fault else Ok(e3.(staterd := e3.staterd[t.id := t]))
  }

  /** Both directions are closed: leave the tree that the REPLY bits of the message, and of
      the state, name. */
  function TreeRemove(e: End, t: Name, opposite: bool): (r: Result<End>)
    requires t in e.states && t.Name?
  {
    if !e.states[t].inTree then Fault
    else
      var e1 := Set(e, t, e.states[t].(inTree := false));
      Ok(if opposite then e1.(staterd := e1.staterd - {t.id}) else e1.(statewr := e1.statewr - {t.id}))
  }

  // ---------------------------------------------------------------- transmit

  /** `dmsg_msg_alloc_locked` with CREATE: a new transaction stacked under `p`. */
  function Open(e: End, p: Name, serial: nat, id: nat): (r: Result<End>) {
    Insert(e, Name(e.me, serial, id, p), St(Cmd(false, false, false), Cmd(false, false, true), true, true, {}, 0))
  }

  /** The header of a message on state `t`. */
  function Header(e: End, t: Name, cmd: Cmd): (m: Msg) {
    var p := if t.Root? then Root else t.parent;
    Msg(t, cmd, MsgId(t), MsgId(p), t.Name? && t.side != e.me, p.Name? && p.side != e.me)
  }

  /** `dmsg_msg_write`, for a message that already holds its state. */
  function Write(e: End, t: Name, cmd: Cmd): (r: Result<End>) {
    if t !in e.states then Fault
    else
      var s := e.states[t];
      var tx := if t.Name? && cmd.create then cmd.(del := false) else s.tx;
      var e1 := Set(e, t, s.(tx := tx));
      if tx.del then Drop(e1, t)
      else
        var e2 :- CleanupTx(e1, t, cmd);
        Ok(e2.(txmsgq := e2.txmsgq + [Header(e, t, cmd)]))
  }

  /** `dmsg_state_cleanuptx`. */
  function CleanupTx(e: End, t: Name, cmd: Cmd): (r: Result<End>)
    requires t in e.states
  {
    var e1 :- Hold(e, t);
    var s := e1.states[t];
    var e2 :-
      if t.Root? || !cmd.del || s.tx.del then Ok(e1)
      else if s.rx.del then
        if s.tx.reply != cmd.reply then Fault
        else
          var e3 :- TreeRemove(Set(e1, t, s.(tx := s.tx.(del := true))), t, s.tx.reply);
          var e4 :- SubqDelete(e3, t);
          Drop(e4, t)
      else Ok(Set(e1, t, s.(tx := s.tx.(del := true))));
    Drop(e2, t)
  }

  /** The message that was allocated with its transaction is still to be written. */
  predicate Unwritten(e: End, t: Name)
    requires t in e.states
  {
    t.Name? && t.side == e.me && !e.states[t].tx.create && e.states[t].inTree
  }

  /** Send on an open transaction, as `dmsg_msg_reply` (`del`), `dmsg_msg_result` and the
      writer of the first message of a transaction do: CREATE on the first message, REPLY in
      the reply direction, nothing on a direction that is closed already. */
  function Send(e: End, t: Name, del: bool): (r: Result<End>) {
    if t !in e.states || t.Root? then Fault
    else if e.states[t].tx.del then Ok(e)
    else
      var cmd := Cmd(!e.states[t].tx.create, del, e.states[t].tx.reply);
      var e1 :- if Unwritten(e, t) then Ok(e) else Hold(e, t);
      Write(e1, t, cmd)
  }

  /** A message outside of any transaction. */
  function SendOneOff(e: End, reply: bool): (r: Result<End>) {
    var e1 :- Hold(e, Root);
    Write(e1, Root, Cmd(false, false, reply))
  }

  /** The I/O thread has sent the first queued message and frees it. */
  function Flush(e: End): (r: Result<End>) {
    if e.txmsgq == [] then Ok(e)
    else Drop(e.(txmsgq := e.txmsgq[1..]), e.txmsgq[0].ref)
  }

  // ---------------------------------------------------------------- receive

  function Find(tree: map<nat, Name>, id: nat): (t: Name) {
    if id in tree then tree[id] else Root
  }

  /** `dmsg_state_msgrx`. */
  function MsgRx(e: End, m: Msg): (r: Result<End>) {
    var e0 :- Hold(e, Root);  // the message is allocated on the root state
    var pstate := Find(if m.revcirc then e.statewr else e.staterd, m.circuit);
    if m.circuit != 0 && pstate == Root then
      var e1 :- Drop(e0, Root);
      Discard(e1)
    else
      var p := if m.circuit == 0 then Root else pstate;
      var state := Find(if m.revtrans then e.statewr else e.staterd, m.id);
      if state == Root then RxUnknown(e0, p, m)
      else
        var e1 :- Drop(e0, Root);
        var e2 :- Hold(e1, state);
        if !e2.states[state].inSubq || p != state.parent then Fault
        else RxKnown(e2, state, m.cmd)
  }

  /** No state has the msgid: the message opens a transaction or is a one-off. */
  function RxUnknown(e: End, p: Name, m: Msg): (r: Result<End>) {
    if m.cmd.create && !m.cmd.reply then
      var t := Name(Other(e.me), Serial(m.ref), m.id, p);
      var e1 :- Hold(e, p);
      var e2 :- Insert(e1, t, St(Cmd(false, false, true), m.cmd.(del := false), true, true, {}, 0));
      RxDelete(e2, t, m.cmd)
    else if m.cmd.create || m.cmd.del || p != Root then Fault
    else Ok(e.(cur := e.cur + [Root]))
  }

  /** The message is over an existing transaction. */
  function RxKnown(e: End, t: Name, cmd: Cmd): (r: Result<End>)
    requires t in e.states && t.Name?
  {
    var s := e.states[t];
    if cmd.create && !cmd.reply then Fault
    else if cmd.create then
      if s.rx.reply != cmd.reply then Fault else RxDelete(Set(e, t, s.(rx := cmd.(del := false))), t, cmd)
    else if cmd.del && !s.rx.create then Fault
    else RxDelete(e, t, cmd)
  }

  /** DELETE closes the receive direction; if both are closed the state leaves its tree. */
  function RxDelete(e: End, t: Name, cmd: Cmd): (r: Result<End>)
    requires t in e.states && t.Name?
  {
    var s := e.states[t];
    var e1 :-
      if !cmd.del then Ok(e)
      else if s.rx.del then Fault
      else
        var e2 := Set(e, t, s.(rx := s.rx.(del := true)));
        if !s.tx.del then Ok(e2)
        else if s.rx.reply != cmd.reply then Fault
        else
          var e3 :- TreeRemove(e2, t, !s.rx.reply);
          Drop(e3, t);
    Ok(e1.(cur := e1.cur + [t]))
  }

  /** `dmsg_state_cleanuprx`, once the callback has returned. */
  function CleanupRx(e: End): (r: Result<End>) {
    if e.cur == [] then Ok(e)
    else
      var t, e1 := e.cur[0], e.(cur := e.cur[1..]);
      if t !in e1.states then Fault
      else if t.Name? && e1.states[t].inSubq && e1.states[t].rx.del && e1.states[t].tx.del then
        var e2 :- SubqDelete(e1, t);
        Drop(e2, t)
      else Drop(e1, t)
  }
}
