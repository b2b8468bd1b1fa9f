/** When a connection fails, the library simulates a DELETE from the peer on every transaction,
    parents before children, and lets each handler react. */
module LinkFailure {
  import opened Endpoint
  import opened References
  import opened Safety

  /** `dmsg_msg_write` on a dying state: the message is not queued but freed. */
  function WriteDying(e: End, t: Name, cmd: Cmd): (r: Result<End>) {
    if t !in e.states || t.Root? then Fault
    else
      var s := e.states[t];
      var tx := if cmd.create then cmd.(del := false) else s.tx;
      var e1 := Set(e, t, s.(tx := tx));
      if tx.del then Drop(e1, t)
      else
        var e2 :- Hold(e1, t);
        if t !in e2.states then Fault
        else
          var e3 :- CleanupTx(e2, t, cmd);
          var e4 :- Drop(e3, t);
          Drop(e4, t)
  }

  /** The handler's `dmsg_msg_reply`, which closes the transmit direction. */
  function ReplyDying(e: End, t: Name): (r: Result<End>) {
    if t !in e.states || t.Root? then Fault
    else if e.states[t].tx.del then Ok(e)
    else
      var e1 :- Hold(e, t);
      WriteDying(e1, t, Cmd(!e.states[t].tx.create, true, e.states[t].tx.reply))
  }

  /** `dmsg_state_cleanuprx` for the message that was taken in last. */
  function CleanupLast(e: End): (r: Result<End>) {
    if e.cur == [] then Ok(e)
    else
      var t, e1 := e.cur[|e.cur| - 1], e.(cur := e.cur[..|e.cur| - 1]);
      if t !in e1.states then Fault
      else if t.Name? && e1.states[t].inSubq && e1.states[t].rx.del && e1.states[t].tx.del then
        var e2 :- SubqDelete(e1, t);
        Drop(e2, t)
      else Drop(e1, t)
  }

  /** `dmsg_state_abort`, without its flags: unless the receive direction is closed already, a
      DELETE is taken in, the handler called, and the message cleaned up. */
  function Abort(e: End, t: Name, closes: bool): (r: Result<End>) {
    if t !in e.states || t.Root? then Fault
    else if e.states[t].rx.del then Ok(e)
    else
      var rx := e.states[t].rx;
      var e1 :- Hold(e, t);
      if t !in e1.states then Fault
      else
        var e2 :- RxKnown(e1, t, Cmd(!rx.create, true, rx.reply));
        var e3 :- if closes then ReplyDying(e2, t) else Ok(e2);
        CleanupLast(e3)
  }

  // ---------------------------------------------------------------- one state

  /** A reply on a state whose receive direction is closed closes it. */
  lemma ReplyOk(e: End, t: Name)
    requires Sound(e) && t in e.states && t.Name? && e.states[t].inSubq && e.states[t].rx.del && t in e.cur
    ensures var r := ReplyDying(e, t);
      && r.Ok? && Sound(r.value) && Frame(e, r.value, t) && r.value.cur == e.cur && r.value.txmsgq == e.txmsgq && t in r.value.states
      && r.value.states[t].rx == e.states[t].rx && r.value.states[t].tx.del && !r.value.states[t].inTree
      && (e.states[t].tx.del ==> r.value == e) && (!e.states[t].tx.del ==> !r.value.states[t].inSubq)
  {
    hide RefOk, Frame, CleanupTx, Unwritten, Drop, Hold;
    assert Tracks(e, t);
    var s := e.states[t];
    if s.tx.del {
      FrameSame(e, e, t);
    } else {
      var cmd := Cmd(!s.tx.create, true, s.tx.reply);
      var tx := if cmd.create then cmd.(del := false) else s.tx;
      Empty(e, NONE, t);
      Start(e, t, 0);
      GoHold(e, e, t, 0);
      var e0 := Hold(e, t).value;
      GoSet(e, e0, t, 1, tx, s.rx);
      var e1 := Set(e0, t, e0.states[t].(tx := tx));
      GoHold(e, e1, t, 1);
      var e2 := Hold(e1, t).value;
      CleanupTxOk(e, e2, t, cmd, 2);
      var e3 := CleanupTx(e2, t, cmd).value;
      GoDrop(e, e3, t, 2);
      var e4 := Drop(e3, t).value;
      LastDrop(e, e4, t);
      FrameClosure(e, Drop(e4, t).value, t);
    }
  }

  /** Dropping the last reference in hand of a state that a running message still holds. */
  lemma LastDrop(e: End, e4: End, t: Name)
    requires Going(e, e4, t, 1) && t in e4.cur
    ensures var r := Drop(e4, t);
      && r.Ok? && RefOk(r.value, NONE) && Frame(e, r.value, t) && r.value.me == e.me && r.value.cur == e.cur && r.value.txmsgq == e.txmsgq
      && t in r.value.states && r.value.states[t] == e4.states[t].(refs := r.value.states[t].refs)
  {
    hide Links, Trees, Counted, Frame;
    DropOk(e4, Hand(t, 1, Root, 0), t);
    var e5 := Drop(e4, t).value;
    CurrentHolds(e4.cur, t);
    Empty(e5, Hand(t, 0, Root, 0), t);
    FrameSame(e4, e5, t);
    FrameTrans(e, e4, e5, t);
  }

  lemma {:induction false} CurrentHolds(q: seq<Name>, t: Name)
    requires t in q
    ensures Current(q, t) > 0
  {
    if q[|q| - 1] != t {
      CurrentHolds(q[..|q| - 1], t);
    }
  }

  /** What aborting a state does to it. */
  ghost predicate Settled(s: St, e': End, t: Name, closes: bool) {
    t in e'.states ==>
      var s' := e'.states[t];
      && s'.rx.del && s'.inTree == s'.inSubq
      && (s.tx.del || (closes && !s.rx.del) ==> !s'.inTree && !s'.inSubq)
  }

  lemma FinishLast(e: End)
    requires RefOk(e, NONE) && e.cur != []
    ensures RefOk(e.(cur := e.cur[..|e.cur| - 1]), Hand(e.cur[|e.cur| - 1], 1, Root, 0))
  {
    var t, e' := e.cur[|e.cur| - 1], e.(cur := e.cur[..|e.cur| - 1]);
    assert forall u :: Current(e.cur, u) == Current(e'.cur, u) + if t == u then 1 else 0;
    QueuesChange(e, NONE, e', Hand(t, 1, Root, 0));
  }

  lemma PopLast(e: End, e3: End, t: Name)
    requires e.cur != [] && t == e.cur[|e.cur| - 1] && Frame(e.(cur := e.cur[..|e.cur| - 1]), e3, t)
    ensures Frame(e, e3, t)
  {}

  /** Cleaning up after the message that was taken in last. */
  lemma CleanupLastOk(e: End, t: Name)
    requires Sound(e) && e.cur != [] && e.cur[|e.cur| - 1] == t && t in e.states && t.Name? && e.states[t].rx.del
    ensures var r, s := CleanupLast(e), e.states[t];
      && r.Ok? && Sound(r.value) && Frame(e, r.value, t) && r.value.cur == e.cur[..|e.cur| - 1] && r.value.txmsgq == e.txmsgq
      && (t in r.value.states ==> SameCmds(r.value.states[t], s) && r.value.states[t].inSubq == (s.inSubq && !s.tx.del))
      && (t !in r.value.states ==> !s.inTree)
  {
    hide RefOk, Frame, Drop, SubqDelete, Live;
    var e1, s := e.(cur := e.cur[..|e.cur| - 1]), e.states[t];
    FinishLast(e);
    assert Tracks(e, t);
    Start(e1, t, 1);
    var e2 := e1;
    if s.inSubq && s.tx.del {
      GoSubq(e1, e1, t, 1);
      e2 := SubqDelete(e1, t).value;
    }
    DropOk(e2, Hand(t, 1, Root, 0), t);
    var e3 := Drop(e2, t).value;
    Empty(e3, Hand(t, 0, Root, 0), t);
    FrameSame(e2, e3, t);
    FrameTrans(e1, e2, e3, t);
    PopLast(e, e3, t);
    LiveTree(e2, t);
    FrameClosure(e, e3, t);
  }

  lemma LiveTree(e: End, t: Name)
    requires t in e.states
    ensures Live(e, t) == 0 ==> !e.states[t].inTree && !e.states[t].inSubq
  {}

  /** Aborting one open transaction: its receive direction is closed; if the transmit direction
      was closed, or the handler closes it, it is in no tree and on no queue any more. */
  lemma AbortOk(e: End, t: Name, closes: bool)
    requires Sound(e) && t in e.states && t.Name? && e.states[t].inTree
    ensures var r := Abort(e, t, closes);
      && r.Ok? && Sound(r.value) && Frame(e, r.value, t) && r.value.cur == e.cur && r.value.txmsgq == e.txmsgq
      && Settled(e.states[t], r.value, t, closes)
  {
    hide RefOk, Frame, RxKnown, ReplyDying, CleanupLast, Alive, Become;
    assert Tracks(e, t);
    var s := e.states[t];
    if s.rx.del {
      FrameSame(e, e, t);
    } else {
      var cmd := Cmd(!s.rx.create, true, s.rx.reply);
      FrameKeys(e, e, t);
      assert SameBits(e, e);
      RxKnownOk(e, e, t, cmd);
      var e2 := RxKnown(Hold(e, t).value, t, cmd).value;
      var e3 := e2;
      if closes {
        ReplyOk(e2, t);
        e3 := ReplyDying(e2, t).value;
        FrameTrans(e, e2, e3, t);
      }
      CleanupLastOk(e3, t);
      FrameTrans(e, e3, CleanupLast(e3).value, t);
    }
  }

  // ---------------------------------------------------------------- all states

  /** The queues lead from the root to this state. */
  ghost predicate Reached(e: End, t: Name) {
    t == Root || (t in e.states && e.states[t].inSubq && Reached(e, t.parent))
  }

  /** The state has not been touched; only if it is in no tree and on no queue may it be freed. */
  ghost predicate Untouched(e: End, e': End, t: Name) {
    t in e.states ==>
      if t in e'.states then e'.states[t].tx == e.states[t].tx && e'.states[t].rx == e.states[t].rx
        && e'.states[t].inTree == e.states[t].inTree && e'.states[t].inSubq == e.states[t].inSubq
      else !e.states[t].inTree && !e.states[t].inSubq
  }

  /** The walk so far: what is marked is done, what is not marked is as it was at the start. */
  ghost predicate Progress(e: End, e': End, marked: set<Name>, closes: Name -> bool) {
    && e'.me == e.me && e'.states.Keys <= e.states.Keys && e'.txmsgq == e.txmsgq
    && (forall t {:trigger t in marked} :: t in marked ==>
      t.Name? && t in e.states && Reached(e, t) && Settled(e.states[t], e', t, closes(t)))
    && (forall t {:trigger Untouched(e, e', t)} :: t !in marked && t.Name? ==> Untouched(e, e', t))
  }

  /** Below a marked state that the walk has left, all states are marked. */
  ghost predicate Swept(e: End, marked: set<Name>, open: set<Name>) {
    forall c {:trigger c in e.states} ::
      c in e.states && c.Name? && e.states[c].inSubq && c.parent in marked && c.parent !in open ==> c in marked
  }

  /** Running code holds only states that are marked, and the root. */
  ghost predicate Holds(e: End, marked: set<Name>) {
    forall t {:trigger t in e.cur} :: t in e.cur ==> t.Root? || t in marked
  }

  /** A step on a state that is being marked. */
  lemma ProgressStep(e: End, e1: End, e2: End, marked: set<Name>, closes: Name -> bool, t: Name)
    requires Progress(e, e1, marked, closes) && Frame(e1, e2, t) && e2.txmsgq == e1.txmsgq && t !in marked && t.Name?
    requires t in e1.states && t in e.states && Reached(e, t) && Settled(e1.states[t], e2, t, closes(t)) &&
      e1.states[t].tx == e.states[t].tx && e1.states[t].rx == e.states[t].rx
    ensures Progress(e, e2, marked + {t}, closes)
  {
    forall u {:trigger Untouched(e, e2, u)} | u !in marked + {t} && u.Name? ensures Untouched(e, e2, u) {
      assert Untouched(e, e1, u);
    }
    forall u {:trigger u in e2.states.Keys} | u in e2.states.Keys ensures u in e.states.Keys {
      assert u == t || u in e1.states.Keys;
    }
  }

  /** Holding or dropping a state changes nothing else. */
  lemma ProgressSame(e: End, e1: End, e2: End, marked: set<Name>, closes: Name -> bool, open: set<Name>)
    requires Progress(e, e1, marked, closes) && Frame(e1, e2, Root) && e2.txmsgq == e1.txmsgq && Root in e1.states
    ensures Progress(e, e2, marked, closes)
    ensures Swept(e1, marked, open) ==> Swept(e2, marked, open)
  {
    forall u {:trigger Untouched(e, e2, u)} | u !in marked && u.Name? ensures Untouched(e, e2, u) {
      assert Untouched(e, e1, u);
    }
    forall u {:trigger u in e2.states.Keys} | u in e2.states.Keys ensures u in e1.states.Keys {
    }
  }

  /** Hold a state while it is worked on; let it go again. */
  function Enter(e: End, t: Name): (r: Result<End>) {
    var e1 :- Hold(e, t);
    Ok(e1.(cur := e1.cur + [t]))
  }

  function Leave(e: End): (r: Result<End>) {
    if e.cur == [] then Fault else Drop(e.(cur := e.cur[..|e.cur| - 1]), e.cur[|e.cur| - 1])
  }

  lemma EnterOk(e: End, t: Name)
    requires Sound(e) && t in e.states
    ensures var r := Enter(e, t);
      && r.Ok? && Sound(r.value) && Frame(e, r.value, Root) && Root in r.value.states && t in r.value.states
      && r.value.cur == e.cur + [t] && r.value.txmsgq == e.txmsgq && r.value.me == e.me
      && r.value.states[t] == e.states[t].(refs := r.value.states[t].refs)
  {
    hide RefOk, Frame, Hold;
    Empty(e, NONE, t);
    HoldOk(e, Hand(t, 0, Root, 0), t);
    var e1 := Hold(e, t).value;
    var e2 := e1.(cur := e1.cur + [t]);
    HoldStays(e, t);
    StartOk(e1, Hand(t, 1, Root, 0), t);
    Empty(e2, Hand(t, 0, Root, 0), t);
    SameSound(e, e1);
    CurMore(e1, e2);
    FrameSame(e, e1, Root);
    FrameQueue(e, e1, e2, Root);
    RootThere(e2, NONE);
  }

  lemma LeaveOk(e: End)
    requires Sound(e) && e.cur != []
    requires var t := e.cur[|e.cur| - 1]; t in e.states && e.states[t].inSubq ==> e.states[t].inTree
    ensures var r := Leave(e);
      && r.Ok? && Sound(r.value) && Frame(e, r.value, Root) && Root in r.value.states
      && r.value.cur == e.cur[..|e.cur| - 1] && r.value.txmsgq == e.txmsgq && r.value.me == e.me
  {
    hide RefOk, Frame, Drop, Live;
    var t, e1 := e.cur[|e.cur| - 1], e.(cur := e.cur[..|e.cur| - 1]);
    FinishLast(e);
    InHandThere(e1, t);
    DropOk(e1, Hand(t, 1, Root, 0), t);
    var e2 := Drop(e1, t).value;
    Empty(e2, Hand(t, 0, Root, 0), t);
    FrameSame(e1, e2, Root);
    PopLast2(e, e2, t);
    RootThere(e2, NONE);
    PopClosure(e, e1, t);
    SameSound(e1, e2);
  }

  lemma PopLast2(e: End, e3: End, t: Name)
    requires e.cur != [] && t == e.cur[|e.cur| - 1] && Frame(e.(cur := e.cur[..|e.cur| - 1]), e3, Root)
    ensures Frame(e, e3, Root)
  {}

  lemma PopClosure(e: End, e1: End, t: Name)
    requires Closure(e) && e1.states == e.states && e1.me == e.me &&
      (forall u {:trigger u in e1.cur} :: u in e.cur && u != t ==> u in e1.cur)
    requires t in e.states && e.states[t].inSubq ==> e.states[t].inTree
    ensures Closure(e1)
  {
    forall u {:trigger e1.states[u]} | u in e1.states ensures Tracks(e1, u) {
      assert Tracks(e, u);
    }
  }

  // ---------------------------------------------------------------- the walk

  /** The failure of a connection: the endpoint, and the ABORTING and DYING flags of its states. */
  class Failure {
    var now: End
    var aborting: set<Name>
    var dying: set<Name>
    /** Whether the handler of a transaction replies with DELETE. */
    const closes: Name -> bool

    constructor (e: End, closes: Name -> bool)
      ensures now == e && aborting == dying == {} && this.closes == closes
    {
      now, aborting, dying := e, {}, {};
      this.closes := closes;
    }

    /** `dmsg_state_dying`: mark a state and all below it, except below one that is marked. */
    method Dying(t: Name)
      requires t in now.states && Links(now)
      modifies this`dying
      ensures t in dying && old(dying) <= dying <= old(dying) + now.states.Keys && MarkedBelow(now, old(dying), dying, {})
      decreases |now.states.Keys - dying|
    {
      if t !in dying {
        Fewer(now.states.Keys, dying, t);
        dying := dying + {t};
        var todo := now.states[t].subq;
        while todo != {}
          invariant todo <= now.states[t].subq && old(dying) + {t} <= dying <= old(dying) + now.states.Keys
          invariant forall c {:trigger c in dying} :: c in now.states[t].subq && c !in todo ==> c in dying
          invariant MarkedBelow(now, old(dying), dying, {t})
          decreases |todo|
        {
          var c :| c in todo;
          More(now.states.Keys, dying, old(dying) + {t});
          Dying(c);
          todo := todo - {c};
        }
      }
    }

    /** Start on a state: hold it; unless it is where the walk starts, mark and abort it. */
    method Begin(t: Name, meto: bool, ghost e: End, ghost open: set<Name>)
      requires Walking(e, now, aborting, closes, open) && MayWalk(e, now, aborting, open, t, meto)
      modifies this
      ensures Walking(e, now, aborting, closes, open + {t}) && now.cur == old(now.cur) + [t]
      ensures aborting == if meto then old(aborting) + {t} else old(aborting)
      ensures t in now.states ==> now.states[t].inTree == now.states[t].inSubq
    {
      hide RefOk, Frame, Abort;
      ghost var e0 := now;
      EnterOk(now, t);
      InStates(e, now, aborting, closes, open, t, meto);
      now := Enter(now, t).value;
      ProgressSame(e, e0, now, aborting, closes, open);
      if meto {
        ghost var e1 := now;
        Dying(t);
        aborting := aborting + {t};
        AbortOk(now, t, closes(t));
        now := Abort(now, t, closes(t)).value;
        ProgressStep(e, e1, now, aborting - {t}, closes, t);
        assert aborting - {t} == old(aborting);
        SweptMore(e1, now, old(aborting), open, t);
      } else {
        SweptOpen(now, aborting, open, t);
      }
    }

    /** `dmsg_simulate_failure`.  `e` is the endpoint when the connection failed, `open` the
        states that are being walked. */
    method Fail(t: Name, meto: bool, ghost e: End, ghost open: set<Name>)
      requires Walking(e, now, aborting, closes, open) && MayWalk(e, now, aborting, open, t, meto)
      modifies this
      ensures Walking(e, now, aborting, closes, open) && now.cur == old(now.cur)
      ensures old(aborting) <= aborting && (meto ==> t in aborting)
      ensures t == Root ==> Below(now, Root, aborting)
      decreases |e.states.Keys - aborting|, if meto then 0 else 1
    {
      hide Walking, Below, Reached, Sound, Level, Links;
      ghost var cur0, marked0 := now.cur, aborting;
      WalkFacts(e, now, aborting, closes, open);
      More(e.states.Keys, aborting, marked0);
      if meto {
        Unmarked(e, now, aborting, open, t);
        Fewer(e.states.Keys, aborting, t);
      }
      Begin(t, meto, e, open);
      ghost var marked1 := aborting;
      WalkCur(e, now, aborting, closes, open + {t}, t);
      var todo := now.states[t].subq - aborting;
      while todo != {}
        invariant Walking(e, now, aborting, closes, open + {t}) && now.cur == cur0 + [t] && t in now.states && marked1 <= aborting
        invariant todo == now.states[t].subq - aborting && Level(now, t)
        decreases |e.states.Keys - aborting|
      {
        var c :| c in todo;
        WalkChild(e, now, aborting, closes, open + {t}, t, c);
        WalkFacts(e, now, aborting, closes, open + {t});
        ghost var marked2 := aborting;
        More(e.states.Keys, marked2, marked1);
        Fewer(e.states.Keys, marked2, c);
        Fail(c, true, e, open + {t});
        More(e.states.Keys, aborting, marked2 + {c});
        WalkCur(e, now, aborting, closes, open + {t}, t);
        todo := now.states[t].subq - aborting;
      }
      Inside(now.states[t].subq, aborting);
      WalkDone(e, now, aborting, closes, open, t);
      now := Leave(now).value;
    }

    /** The connection has failed.  Every transaction to which the queues lead from the root has
        its receive direction closed, and is off both trees and its parent's queue if it had
        sent DELETE or its handler replied with DELETE; every other one is as it was. */
    method ConnectionFailed()
      requires Sound(now) && now.cur == [] && aborting == {}
      modifies this
      ensures Sound(now) && now.cur == [] && now.txmsgq == old(now.txmsgq) && AfterFailure(old(now), now, closes)
    {
      ghost var e := now;
      RootThere(now, NONE);
      Fail(Root, false, e, {});
      forall t: Name {:trigger Reached(e, t)} | t.Name? && t in e.states && Reached(e, t) ensures Settled(e.states[t], now, t, closes(t)) {
        AllMarked(e, now, aborting, closes, t);
      }
    }
  }

  /** What a failure leaves: settled states, and untouched ones that the walk cannot reach. */
  ghost predicate AfterFailure(e: End, now: End, closes: Name -> bool) {
    && now.states.Keys <= e.states.Keys
    && (forall t: Name {:trigger Reached(e, t)} :: t.Name? && t in e.states && Reached(e, t) ==> Settled(e.states[t], now, t, closes(t)))
    && (forall t: Name {:trigger Untouched(e, now, t)} :: t.Name? && !Reached(e, t) ==> Untouched(e, now, t))
  }

  ghost predicate ClosedRx(e: End, t: Name) { t in e.states && e.states[t].inTree ==> e.states[t].rx.del }

  /** All transactions are closed in the receive direction exactly when, before the failure,
      each was closed already or on the queues below the root.  One whose parent was closed
      before it is not, and stays open. */
  lemma ClosedIffReached(e: End, now: End, closes: Name -> bool)
    requires Sound(e) && Sound(now) && AfterFailure(e, now, closes)
    ensures (forall t: Name {:trigger ClosedRx(now, t)} :: ClosedRx(now, t)) <==>
      (forall t: Name {:trigger ClosedRx(e, t)} :: ClosedRx(e, t) || Reached(e, t))
  {
    if forall t: Name {:trigger ClosedRx(now, t)} :: ClosedRx(now, t) {
      forall t: Name {:trigger ClosedRx(e, t)} ensures ClosedRx(e, t) || Reached(e, t) {
        var after, same := ClosedRx(now, t), Untouched(e, now, t);
        RootThere(e, NONE);
      }
    }
    if forall t: Name {:trigger ClosedRx(e, t)} :: ClosedRx(e, t) || Reached(e, t) {
      forall t: Name {:trigger ClosedRx(now, t)} ensures ClosedRx(now, t) {
        var before, same := ClosedRx(e, t), Untouched(e, now, t);
        assert t in now.states.Keys ==> t in e.states.Keys;
        RootThere(now, NONE);
      }
    }
  }

  /** The state is on its parent's queue only while it is in a tree. */
  ghost predicate Level(e: End, t: Name) { t in e.states ==> e.states[t].inTree == e.states[t].inSubq }

  lemma WalkFacts(e: End, now: End, aborting: set<Name>, closes: Name -> bool, open: set<Name>)
    requires Walking(e, now, aborting, closes, open)
    ensures now.states.Keys <= e.states.Keys && open <= aborting + {Root}
  {}

  lemma Unmarked(e: End, now: End, aborting: set<Name>, open: set<Name>, t: Name)
    requires MayWalk(e, now, aborting, open, t, true) && now.states.Keys <= e.states.Keys
    ensures t !in aborting && t in e.states.Keys
  {
    assert t in now.states.Keys;
  }

  lemma WalkCur(e: End, now: End, aborting: set<Name>, closes: Name -> bool, open: set<Name>, t: Name)
    requires Walking(e, now, aborting, closes, open) && t in now.cur
    ensures t in now.states
    ensures t in aborting || t == Root ==> Level(now, t)
  {
    CurrentHolds(now.cur, t);
  }

  lemma WalkChild(e: End, now: End, aborting: set<Name>, closes: Name -> bool, open: set<Name>, t: Name, c: Name)
    requires Walking(e, now, aborting, closes, open) && t in now.states && t in open && c in now.states[t].subq && c !in aborting
    ensures MayWalk(e, now, aborting, open, c, true) && c in e.states.Keys
  {
    assert Untouched(e, now, c);
    assert c in now.states.Keys;
  }

  lemma WalkDone(e: End, now: End, aborting: set<Name>, closes: Name -> bool, open: set<Name>, t: Name)
    requires Walking(e, now, aborting, closes, open + {t}) && now.cur != [] &&
      now.cur[|now.cur| - 1] == t && t in now.states && Level(now, t)
    requires now.states[t].subq <= aborting && open <= aborting + {Root}
    ensures Leave(now).Ok? && Walking(e, Leave(now).value, aborting, closes, open) && Leave(now).value.cur == now.cur[..|now.cur| - 1]
    ensures t == Root ==> Below(Leave(now).value, Root, aborting)
  {
    hide RefOk, Frame, Leave;
    LeaveOk(now);
    var e1 := Leave(now).value;
    RootThere(now, NONE);
    SweptLess(now, aborting, open, t);
    ProgressSame(e, now, e1, aborting, closes, open);
    HoldsLess(now, e1, aborting);
    if t == Root {
      BelowSame(now, e1, aborting);
    }
  }

  lemma HoldsLess(now: End, e1: End, aborting: set<Name>)
    requires Holds(now, aborting) && now.cur != [] && e1.cur == now.cur[..|now.cur| - 1]
    ensures Holds(e1, aborting)
  {
    forall t {:trigger t in e1.cur} | t in e1.cur ensures t.Root? || t in aborting {
      assert t in now.cur;
    }
  }

  lemma SweptLess(now: End, aborting: set<Name>, open: set<Name>, t: Name)
    requires RefOk(now, NONE) && Swept(now, aborting, open + {t}) && t in now.states && now.states[t].subq <= aborting
    ensures Swept(now, aborting, open) && (t == Root ==> Below(now, Root, aborting))
  {
    forall c {:trigger c in now.states} | c in now.states && c.Name? && now.states[c].inSubq && c.parent == t ensures c in aborting {
      assert c in now.states[t].subq;
    }
  }

  lemma BelowSame(now: End, e1: End, aborting: set<Name>)
    requires Frame(now, e1, Root) && Below(now, Root, aborting)
    ensures Below(e1, Root, aborting)
  {
    forall c {:trigger c in e1.states} | c in e1.states && c.Name? && e1.states[c].inSubq && c.parent == Root ensures c in aborting {
      assert c in now.states;
    }
  }

  /** Every state that the queues lead to has been marked. */
  lemma {:induction false} AllMarked(e: End, now: End, aborting: set<Name>, closes: Name -> bool, t: Name)
    requires Walking(e, now, aborting, closes, {}) && Below(now, Root, aborting) && t.Name? && Reached(e, t)
    ensures t in aborting
    decreases t
  {
    if t.parent != Root {
      AllMarked(e, now, aborting, closes, t.parent);
    }
    var asBefore := Untouched(e, now, t);
  }

  /** The walk keeps the endpoint sound and knows what it has done. */
  ghost predicate Walking(e: End, now: End, aborting: set<Name>, closes: Name -> bool, open: set<Name>) {
    && Sound(now) && Progress(e, now, aborting, closes) && Swept(now, aborting, open) && Holds(now, aborting)
    && open <= aborting + {Root}
  }

  /** The walk may go to this state. */
  ghost predicate MayWalk(e: End, now: End, aborting: set<Name>, open: set<Name>, t: Name, meto: bool) {
    && t in now.states
    && if meto then t.Name? && t !in aborting && now.states[t].inSubq && Reached(e, t) else t == Root
  }

  /** All states on the queue of a state are marked. */
  ghost predicate Below(e: End, t: Name, marked: set<Name>) {
    forall c {:trigger c in e.states} :: c in e.states && c.Name? && e.states[c].inSubq && c.parent == t ==> c in marked
  }

  lemma InStates(e: End, now: End, aborting: set<Name>, closes: Name -> bool, open: set<Name>, t: Name, meto: bool)
    requires Walking(e, now, aborting, closes, open) && MayWalk(e, now, aborting, open, t, meto)
    ensures Root in now.states && Links(now)
    ensures meto ==> t in e.states && now.states[t].inTree && now.states[t].tx == e.states[t].tx && now.states[t].rx == e.states[t].rx
  {
    RootThere(now, NONE);
    if meto {
      assert Tracks(now, t);
      assert t in now.states.Keys;
      assert Untouched(e, now, t);
    }
  }

  lemma SweptOpen(now: End, aborting: set<Name>, open: set<Name>, t: Name)
    requires Swept(now, aborting, open)
    ensures Swept(now, aborting, open + {t})
  {}

  lemma SweptMore(e1: End, now: End, aborting: set<Name>, open: set<Name>, t: Name)
    requires Swept(e1, aborting, open) && Frame(e1, now, t)
    ensures Swept(now, aborting + {t}, open + {t})
  {
    forall c {:trigger c in now.states} | c in now.states && c.Name? &&
      now.states[c].inSubq && c.parent in aborting + {t} && c.parent !in open + {t}
      ensures c in aborting + {t}
    {
      if c != t {
        assert c in e1.states;
      }
    }
  }

  /** Below every newly marked state, except those in `open`, all states are marked. */
  ghost predicate MarkedBelow(e: End, before: set<Name>, after: set<Name>, open: set<Name>) {
    forall c {:trigger c in after} ::
      c in e.states && c.Name? && e.states[c].inSubq && c.parent in after - before && c.parent !in open ==> c in after
  }

  lemma Inside(a: set<Name>, b: set<Name>)
    requires a - b == {}
    ensures a <= b
  {
    assert forall x :: x in a ==> x in b || x in a - b;
  }

  lemma Fewer(all: set<Name>, marked: set<Name>, t: Name)
    requires t in all && t !in marked
    ensures |all - (marked + {t})| < |all - marked|
  {
    assert all - marked == (all - (marked + {t})) + {t};
  }

  lemma More(all: set<Name>, marked: set<Name>, less: set<Name>)
    requires less <= marked
    ensures |all - marked| <= |all - less|
  {
    assert all - less == (all - marked) + ((marked - less) * all);
  }
}
