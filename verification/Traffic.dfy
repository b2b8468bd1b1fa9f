/** The messages of a run, told by its steps alone: what one side sends, and what the other takes
    in. */
module Traffic {
  import opened Endpoint
  import opened References
  import opened Safety
  import opened Session
  import opened Transactions

  datatype History = History(sent: seq<Msg>, received: seq<Msg>)

  /** The message of a transaction: CREATE if it is the first, DELETE if asked for, REPLY if the peer
      opened the transaction; its own msgid and that of the transaction it is stacked under, each
      with the side that it belongs to. */
  function Said(e: End, t: Name, del: bool): Msg
    requires t in e.states && t.Name?
  {
    Msg(t, Cmd(!e.states[t].tx.create, del, t.side != e.me), t.id, if t.parent.Root? then 0 else t.parent.id,
        t.side != e.me, t.parent.Name? && t.parent.side != e.me)
  }

  /** What a step from `y` adds to the traffic from `s` to the other side. */
  function Noted(y: System, step: Step, s: Side, h: History): History {
    match step
    case Sends(s', t, del) =>
      var e := EndOf(y, s);
      if s' == s && t in e.states && t.Name? && !e.states[t].tx.del then h.(sent := h.sent + [Said(e, t, del)]) else h
    case OneOff(s', reply) =>
      if s' == s then h.(sent := h.sent + [Msg(Root, Cmd(false, false, reply), 0, 0, false, false)]) else h
    case Receives(s') =>
      if s' == Other(s) && Wire(y, s) != [] then h.(received := h.received + [Wire(y, s)[0]]) else h
    case _ => h
  }

  /** What a run adds. */
  function Told(y: System, steps: seq<Step>, s: Side, h: History): History
    decreases |steps|
  {
    if steps == [] then h
    else
      match Next(y, steps[0])
      case Ok(y1) => Told(y1, steps[1..], s, Noted(y, steps[0], s, h))
      case _ => h
  }

  /** A side's queue grows by some messages, or stays. */
  lemma Queued(y: System, s': Side, e1: End, ms: seq<Msg>, s: Side)
    requires e1.txmsgq == EndOf(y, s').txmsgq + ms
    ensures Out(Put(y, s', e1), s) == if s == s' then Out(y, s) + ms else Out(y, s)
  {}

  /** The first of a queue goes on the wire. */
  lemma Flushed(y: System, s': Side, e1: End, s: Side)
    requires EndOf(y, s').txmsgq != [] && e1.txmsgq == EndOf(y, s').txmsgq[1..]
    ensures Out(Put(PutWire(y, s', Wire(y, s') + [EndOf(y, s').txmsgq[0]]), s', e1), s) == Out(y, s)
  {}

  /** The first on the wire is taken in. */
  lemma Taken(y: System, s': Side, e1: End, s: Side)
    requires Wire(y, Other(s')) != [] && e1.txmsgq == EndOf(y, s').txmsgq
    ensures Out(y, s) == (if s == Other(s') then [Wire(y, s)[0]] else []) +
      Out(Put(PutWire(y, Other(s'), Wire(y, Other(s'))[1..]), s', e1), s)
  {}

  lemma Assoc(a: seq<Msg>, b: seq<Msg>, c: seq<Msg>)
    ensures (a + b) + c == a + (b + c) && a + [] == a && [] + a == a
  {}

  /** The message of a sound endpoint says what it should. */
  lemma HeaderSaid(e: End, t: Name, del: bool)
    requires Sound(e) && t in e.states && t.Name?
    ensures Header(e, t, Cmd(!e.states[t].tx.create, del, e.states[t].tx.reply)) == Said(e, t, del)
  {}

  lemma OpenSays(e: End, p: Name, serial: nat, id: nat)
    ensures Open(e, p, serial, id).Ok? ==> Open(e, p, serial, id).value.txmsgq == e.txmsgq
  {}

  /** The history goes on to account for what is under way. */
  ghost predicate Accounts(y: System, step: Step, s: Side, h: History)
    requires Next(y, step).Ok?
  {
    var h1 := Noted(y, step, s, h);
    h1.sent == h1.received + Out(Next(y, step).value, s)
  }

  lemma StepTold(y: System, step: Step, s: Side, h: History)
    requires Inv(y) && Disciplined(y, step) && h.sent == h.received + Out(y, s)
    ensures Next(y, step).Ok? && Accounts(y, step, s, h)
  {
    StepSafe(y, step);
    assert Sound(EndOf(y, step.s)) && (step.Sends? ==> step.t in EndOf(y, step.s).states && step.t.Name?);
    hide Inv, Sound, Next, Out, Disciplined, Accounts;
    match step
    case Sends(_, _, _) => SendTold(y, step, s, h);
    case OneOff(_, _) => OneOffTold(y, step, s, h);
    case Receives(_) => ReceiveTold(y, step, s, h);
    case _ => QuietTold(y, step, s, h);
  }

  /** A step that neither sends nor receives. */
  lemma QuietTold(y: System, step: Step, s: Side, h: History)
    requires (step.Opens? || step.Flushes? || step.CleansUp?) && Sound(EndOf(y, step.s)) && Next(y, step).Ok?
    requires h.sent == h.received + Out(y, s)
    ensures Accounts(y, step, s, h)
  {
    var e := EndOf(y, step.s);
    hide Sound, Open, Flush, CleanupRx, Out, Alive;
    Assoc(e.txmsgq, [], []);
    Assoc(Out(y, s), [], []);
    match step
    case Opens(_, p, serial, id) =>
      OpenSays(e, p, serial, id);
      Queued(y, step.s, Open(e, p, serial, id).value, [], s);
    case Flushes(_) =>
      FlushOk(e);
      if e.txmsgq != [] { Flushed(y, step.s, Flush(e).value, s); }
    case CleansUp(_) =>
      CleanupRxOk(e);
      Queued(y, step.s, CleanupRx(e).value, [], s);
  }

  lemma OneOffTold(y: System, step: Step, s: Side, h: History)
    requires step.OneOff? && Sound(EndOf(y, step.s)) && Next(y, step).Ok? && h.sent == h.received + Out(y, s)
    ensures Accounts(y, step, s, h)
  {
    var e := EndOf(y, step.s);
    SendOneOffOk(e, step.reply);
    RootSays(e, step.reply);
    hide Sound, SendOneOff, Header, Out, Alive;
    var m := Msg(Root, Cmd(false, false, step.reply), 0, 0, false, false);
    Queued(y, step.s, SendOneOff(e, step.reply).value, [m], s);
    Assoc(h.received, Out(y, s), [m]);
  }

  lemma ReceiveTold(y: System, step: Step, s: Side, h: History)
    requires step.Receives? && Sound(EndOf(y, step.s)) && Next(y, step).Ok? && h.sent == h.received + Out(y, s)
    ensures Accounts(y, step, s, h)
  {
    var e, w := EndOf(y, step.s), Wire(y, Other(step.s));
    if w != [] {
      MsgRxOk(e, w[0]);
      hide Sound, MsgRx, Out, Alive, Fits, NoCircuit;
      Taken(y, step.s, MsgRx(e, w[0]).value, s);
      Assoc(h.received, if s == Other(step.s) then [w[0]] else [], Out(Next(y, step).value, s));
      Assoc(Out(Next(y, step).value, s), [], []);
    }
  }

  lemma SendTold(y: System, step: Step, s: Side, h: History)
    requires step.Sends? && h.sent == h.received + Out(y, s) && Next(y, step).Ok?
    requires var e := EndOf(y, step.s); Sound(e) && step.t in e.states && step.t.Name?
    ensures Accounts(y, step, s, h)
  {
    var e := EndOf(y, step.s);
    SendOk(e, step.t, step.del);
    HeaderSaid(e, step.t, step.del);
    hide Sound, Send, Out, Said, Header, Put, Alive;
    var m := Said(e, step.t, step.del);
    var ms: seq<Msg> := if e.states[step.t].tx.del then [] else [m];
    Assoc(e.txmsgq, [], []);
    Queued(y, step.s, Send(e, step.t, step.del).value, ms, s);
    Assoc(h.received, Out(y, s), ms);
    Assoc(Out(y, s), [], []);
  }

  lemma RootSays(e: End, reply: bool)
    ensures Header(e, Root, Cmd(false, false, reply)) == Msg(Root, Cmd(false, false, reply), 0, 0, false, false)
  {}

  /** Over every run from the start that keeps the two rules: what the other side took in, followed
      by what is under way, is what this side sent, message by message and in this order. */
  lemma RunTold(steps: seq<Step>, s: Side)
    requires Orderly(Init(), steps)
    ensures Exec(Init(), steps).Ran?
    ensures var h := Told(Init(), steps, s, History([], [])); h.sent == h.received + Out(Exec(Init(), steps).end, s)
  {
    InitInv();
    RunFrom(Init(), steps, s, History([], []));
  }

  lemma {:induction false} RunFrom(y: System, steps: seq<Step>, s: Side, h: History)
    requires Inv(y) && Orderly(y, steps) && h.sent == h.received + Out(y, s)
    ensures Exec(y, steps).Ran?
    ensures var h1 := Told(y, steps, s, h); h1.sent == h1.received + Out(Exec(y, steps).end, s)
    decreases |steps|
  {
    hide Inv, Next, Disciplined, Out, Noted;
    if steps != [] {
      StepTold(y, steps[0], s, h);
      StepSafe(y, steps[0]);
      RunFrom(Next(y, steps[0]).value, steps[1..], s, Noted(y, steps[0], s, h));
    }
  }
}
