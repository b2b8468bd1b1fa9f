/** The steps that the library takes inside one operation of an endpoint, and how the operation
    is put together from them. */
module EndpointSteps {
  import opened Endpoint
  import opened References
  import opened Safety

  lemma Updated(a: map<Name, St>, b: map<Name, St>, t: Name)
    requires t in a && b.Keys == a.Keys && forall n {:trigger b[n]} :: n in a && n != t ==> b[n] == a[n]
    ensures b == a[t := b[t]]
  {
    assert forall n {:trigger n in b} :: n in b <==> n in a;
  }

  lemma DropIs(e: End, t: Name)
    requires t in e.states
    ensures var s := e.states[t];
      Drop(e, t) ==
        if s.refs <= 0 then Fault
        else if s.refs > 1 then Ok(Set(e, t, s.(refs := s.refs - 1)))
        else if t.Root? || s.inTree || s.inSubq || s.subq != {} then Fault
        else Ok(e.(states := e.states[t := s.(refs := s.refs - 1)] - {t}))
  {
    assert e.states[t := e.states[t].(refs := e.states[t].refs - 1)] - {t} == e.states - {t};
  }

  /** The two ways in which a drop succeeds, and the one in which the last one fails. */
  lemma Dropped(e: End, t: Name, now: End, freed: bool)
    requires t in e.states && e.states[t].refs > 0 && now == e.(states := now.states)
    requires e.states[t].refs > 1 ==> freed && now.states == e.states[t := e.states[t].(refs := e.states[t].refs - 1)]
    requires e.states[t].refs == 1 ==>
      (freed <==> !t.Root? && !e.states[t].inTree && !e.states[t].inSubq && e.states[t].subq == {})
    requires e.states[t].refs == 1 && freed ==> now.states == e.states[t := e.states[t].(refs := 0)] - {t}
    ensures Drop(e, t) == if freed then Ok(now) else Fault
  {
    DropIs(e, t);
  }

  lemma DropOther(e: End, t: Name, u: Name)
    requires t != u
    ensures Drop(e, t).Ok? ==> (u in Drop(e, t).value.states <==> u in e.states)
  {}

  /** The contents when `t` has left the queue of `p`. */
  ghost function Dequeued(was: map<Name, St>, t: Name, p: Name): map<Name, St>
    requires t in was && p in was
  {
    was[t := was[t].(inSubq := false)][p := was[p].(subq := was[p].subq - {t})]
  }

  ghost function Stacked(was: map<Name, St>, t: Name, p: Name, s: St): map<Name, St>
    requires p in was
  {
    var r := was[p].(refs := if was[p].subq == {} then was[p].refs + 1 else was[p].refs);
    was[p := r][t := s][p := r.(subq := r.subq + {t})]
  }

  lemma InsertIs(e: End, t: Name, s: St)
    requires t.Name? && t !in e.states && t.parent in e.states && s.subq == {} && s.inTree && s.inSubq
    ensures Insert(e, t, s) ==
      var e1 := e.(states := Stacked(e.states, t, t.parent, s.(refs := 3)));
      if t.side == e.me then if t.id in e.statewr then Fault else Ok(e1.(statewr := e1.statewr[t.id := t]))
      else if t.id in e.staterd then Fault else Ok(e1.(staterd := e1.staterd[t.id := t]))
  {
    var p, r := t.parent, e.states[t.parent].(refs := if e.states[t.parent].subq == {} then e.states[t.parent].refs + 1
      else e.states[t.parent].refs);
    var r1 := r.(subq := r.subq + {t});
    assert e.states[p := r][p := r1] == e.states[p := r1];
    assert e.states[p := r1][t := s.(refs := 3)] == e.states[p := r][t := s.(refs := 3)][p := r1];
  }

  ghost function Unhooked(e: End, t: Name, opposite: bool): Result<End>
    requires t in e.states && t.Name?
  {
    var e1 :- TreeRemove(e, t, opposite);
    var e2 :- SubqDelete(e1, t);
    Drop(e2, t)
  }

  lemma UnhookedOk(e: End, t: Name, opposite: bool)
    requires t in e.states && t.Name? && Unhooked(e, t, opposite).Ok?
    ensures var r := TreeRemove(e, t, opposite); r.Ok? && t in r.value.states
    ensures var r := SubqDelete(TreeRemove(e, t, opposite).value, t); r.Ok? && t in r.value.states
    ensures e.states[t].inSubq ==> t.parent in e.states && t.parent != t
  {}

  ghost function ClosedTx(e: End, t: Name, cmd: Cmd): Result<End>
    requires t in e.states
  {
    var s := e.states[t];
    var e1 := Set(e, t, s.(tx := s.tx.(del := true)));
    if t.Root? || !cmd.del || s.tx.del then Ok(e)
    else if !s.rx.del then Ok(e1)
    else if s.tx.reply != cmd.reply then Fault
    else Unhooked(e1, t, s.tx.reply)
  }

  lemma CleanupTxIs(e: End, t: Name, cmd: Cmd)
    requires t in e.states
    ensures Hold(e, t).Ok? && t in Hold(e, t).value.states
    ensures CleanupTx(e, t, cmd) == var r := ClosedTx(Hold(e, t).value, t, cmd); if r.Ok? then Drop(r.value, t) else r
    ensures CleanupTx(e, t, cmd).Ok? ==> t in ClosedTx(Hold(e, t).value, t, cmd).value.states
  {
    hide TreeRemove, SubqDelete;
  }

  lemma WriteIs(e: End, t: Name, cmd: Cmd)
    requires t in e.states
    ensures var s := e.states[t];
      var tx := if t.Name? && cmd.create then cmd.(del := false) else s.tx;
      var e1 := Set(e, t, s.(tx := tx));
      Write(e, t, cmd) ==
        if tx.del then Drop(e1, t)
        else var r := CleanupTx(e1, t, cmd); if r.Ok? then Ok(r.value.(txmsgq := r.value.txmsgq + [Header(e, t, cmd)])) else r
    ensures e.(states := e.states[t := e.states[t]]) == e
  {
    assert e.states[t := e.states[t]] == e.states;
  }

  lemma SendIs(e: End, t: Name, del: bool)
    requires t in e.states && t.Name?
    ensures var s := e.states[t];
      var e1 := if Unwritten(e, t) then e else Hold(e, t).value;
      Send(e, t, del) == if s.tx.del then Ok(e) else Write(e1, t, Cmd(!s.tx.create, del, s.tx.reply))
  {
    hide Write;
  }

  ghost function DeletedRx(e: End, t: Name, cmd: Cmd): Result<End>
    requires t in e.states && t.Name?
  {
    var s := e.states[t];
    var e1 := Set(e, t, s.(rx := s.rx.(del := true)));
    if s.rx.del then Fault
    else if !s.tx.del then Ok(e1)
    else if s.rx.reply != cmd.reply then Fault
    else
      var e2 :- TreeRemove(e1, t, !s.rx.reply);
      Drop(e2, t)
  }

  lemma FlushIs(e: End, e1: End)
    requires e.txmsgq != [] && e1 == e.(txmsgq := e.txmsgq[1..])
    ensures Flush(e) == Drop(e1, e.txmsgq[0].ref) && (Flush(e).Ok? ==> e.txmsgq[0].ref in e1.states)
  {}

  lemma CleanupRxIs(e: End, e1: End)
    requires e.cur != [] && e1 == e.(cur := e.cur[1..])
    ensures var t := e.cur[0];
      if t !in e1.states then CleanupRx(e) == Fault
      else if t.Name? && e1.states[t].inSubq && e1.states[t].rx.del && e1.states[t].tx.del then
        var r := SubqDelete(e1, t);
        && CleanupRx(e) == (if r.Ok? then Drop(r.value, t) else r)
        && (CleanupRx(e).Ok? ==> t in r.value.states && t.parent in e1.states && t.parent != t)
      else CleanupRx(e) == Drop(e1, t)
  {}

  ghost function CreatedBy(e: End, p: Name, t: Name, cmd: Cmd): Result<End>
    requires t.Name?
  {
    var e1 :- Hold(e, p);
    var e2 :- Insert(e1, t, St(Cmd(false, false, true), cmd.(del := false), true, true, {}, 0));
    RxDelete(e2, t, cmd)
  }

  lemma RxUnknownIs(e: End, p: Name, m: Msg)
    ensures RxUnknown(e, p, m) ==
      if m.cmd.create && !m.cmd.reply then CreatedBy(e, p, Name(Other(e.me), Serial(m.ref), m.id, p), m.cmd)
      else if m.cmd.create || m.cmd.del || p != Root then Fault
      else Ok(e.(cur := e.cur + [Root]))
  {
    hide Insert, RxDelete, Hold;
  }

  ghost function HeldBy(e: End, p: Name, t: Name, cmd: Cmd): Result<End>
    requires t.Name?
  {
    var e1 :- Hold(e, t);
    if t !in e1.states || !e1.states[t].inSubq || p != t.parent then Fault else RxKnown(e1, t, cmd)
  }

  ghost function Found(e: End, p: Name, t: Name, cmd: Cmd): Result<End>
    requires t.Name?
  {
    var e1 :- Drop(e, Root);
    HeldBy(e1, p, t, cmd)
  }

  lemma MsgRxIs(e: End, m: Msg)
    requires Root in e.states
    ensures Hold(e, Root).Ok?
    ensures var e0 := Hold(e, Root).value;
      MsgRx(e, m) ==
        if NoCircuit(e, m) then var r := Drop(e0, Root); if r.Ok? then Discard(r.value) else r
        else if FindState(e, m) == Root then RxUnknown(e0, FindCircuit(e, m), m)
        else Found(e0, FindCircuit(e, m), FindState(e, m), m.cmd)
  {
    hide Drop, RxUnknown, RxKnown;
  }

  lemma TreeThere(e: End, ours: bool, id: nat)
    requires RefOk(e, NONE)
    ensures var tree := if ours then e.statewr else e.staterd; id in tree ==> tree[id] in e.states && tree[id].Name?
  {
    var tree := if ours then e.statewr else e.staterd;
    if id in tree {
      assert InTreeAs(e, tree[id], if ours then e.me else Other(e.me), id);
    }
  }

  lemma RxDeleteIs(e: End, t: Name, cmd: Cmd)
    requires t in e.states && t.Name?
    ensures RxDelete(e, t, cmd) ==
      var r := if cmd.del then DeletedRx(e, t, cmd) else Ok(e);
      if r.Ok? then Ok(r.value.(cur := r.value.cur + [t])) else r
  {
    hide TreeRemove, Drop;
  }

  ghost function Released(e: End, t: Name, p: Name): Result<End>
    requires t in e.states && p in e.states
  {
    var e1 :- if e.states[p].subq == {} then Drop(e, p) else Ok(e);
    Drop(e1, t)
  }

  lemma SubqDeleteIs(e: End, t: Name)
    requires t in e.states && t.Name? && e.states[t].inSubq && t.parent in e.states && t.parent != t
    ensures SubqDelete(e, t) == Released(e.(states := Dequeued(e.states, t, t.parent)), t, t.parent)
  {
    hide Drop;
  }
}
