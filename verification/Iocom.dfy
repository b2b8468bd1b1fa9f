/** The endpoint as the library has it: state structures that point to each other and are updated
    in place.  `Now` is what they mean; every method does to it what the endpoint's operation does. */
module Iocom {
  import opened Endpoint
  import opened References
  import opened Safety
  import opened EndpointSteps
  import opened States

  class Conn {
    const me: Side
    const state0: State
    var statewr: map<nat, State>
    var staterd: map<nat, State>
    var txmsgq: seq<Entry>
    var cur: seq<State>
    /** The structures that are allocated. */
    ghost var states: map<Name, State>

    /** The contents of the structures. */
    ghost function Contents(): map<Name, St>
      reads this`states, states.Values
    {
      map n | n in states :: states[n].Now()
    }

    ghost function Now(): End
      reads this, states.Values
    {
      End(me, Contents(), Ids(statewr), Ids(staterd), Heads(txmsgq), Names(cur))
    }

    /** The structure is allocated. */
    ghost predicate Alloc(s: State)
      reads this`states
    {
      s.name in states && states[s.name] == s
    }

    ghost predicate Valid()
      reads this, states.Values
    {
      && Named(me, state0, states) && KnownSubqs()
      && KnownTree(states, statewr) && KnownTree(states, staterd) && KnownQueue(states, txmsgq) && KnownSeq(states, cur)
    }

    ghost predicate KnownSubqs()
      reads this`states, states.Values
    {
      forall n, c {:trigger c in states[n].subq} :: n in states && c in states[n].subq ==> Known(states, c)
    }

    /** `dmsg_iocom_init`: nothing but the root state, which is never freed. */
    constructor (me: Side)
      ensures this.me == me && Valid() && Sound(Now()) && fresh(states.Values)
    {
      this.me := me;
      var zero := Cmd(false, false, false);
      var root := new State(Root, 0, null, false, zero, zero);
      state0 := root;
      statewr, staterd, txmsgq, cur := map[], map[], [], [];
      states := map[Root := root];
      new;
      assert Live(Now(), Root) == 1;
      assert Links(Now()) && Trees(Now()) && Counted(Now(), NONE);
    }

    lemma OtherNames(t: State)
      requires Valid()
      ensures forall n {:trigger states[n]} :: n in states && n != t.name ==> states[n] != t
    {}

    lemma RootName(t: State)
      requires Valid() && Alloc(t)
      ensures t.name == Root <==> t == state0
    {}

    /** Only the structure of `t` has changed since. */
    ghost predicate OnlyOne(was: map<Name, St>, t: State)
      reads this`states, states.Values
    {
      Alloc(t) && was.Keys == states.Keys && forall n {:trigger states[n]} :: n in states && n != t.name ==> states[n].Now() == was[n]
    }

    lemma OneChanged(was: map<Name, St>, t: State)
      requires OnlyOne(was, t)
      ensures Contents() == was[t.name := t.Now()]
    {
      Updated(was, Contents(), t.name);
    }

    /** One more or one less reference. */
    method Count(t: State, n: int)
      requires Valid() && Alloc(t)
      modifies t`refs
      ensures Valid() && t.refs == old(t.refs) + n
      ensures t.name in old(Contents()) && Contents() == old(Contents())[t.name := old(t.Now()).(refs := t.refs)]
    {
      ghost var was := Contents();
      OtherNames(t);
      hide KnownTree, KnownQueue, KnownSeq, Named;
      t.refs := t.refs + n;
      OneChanged(was, t);
    }

    lemma Holds(t: State)
      requires Alloc(t)
      ensures t.name in Contents() && Contents()[t.name] == t.Now() && Contents().Keys == states.Keys
    {}

    /** `dmsg_state_hold`. */
    method HoldState(t: State)
      requires Valid() && Alloc(t)
      modifies t`refs
      ensures Valid() && Hold(old(Now()), t.name) == Ok(Now()) && forall n {:trigger Unused(n)} :: old(Unused(n)) ==> Unused(n)
    {
      Holds(t);
      hide Valid, Contents;
      Count(t, 1);
    }

    /** `dmsg_state_free`. */
    method Free(t: State)
      requires Valid() && Alloc(t)
      modifies this`states
      ensures Valid() && states == old(states) - {t.name} && Contents() == old(Contents()) - {t.name}
    {
      ghost var was := Contents();
      OtherNames(t);
      KnownFewer(me, state0, states, t.name);
      hide KnownTree, KnownQueue, KnownSeq, Named;
      states := states - {t.name};
      assert Contents() == was - {t.name};
    }

    /** The last reference is gone. */
    method FreeLast(t: State) returns (v: Verdict)
      requires Valid() && Alloc(t)
      modifies this`states
      ensures v != Thrown && (v == Failed <==> t == state0 || t.inTree || t.inSubq || t.subq != {})
      ensures v == Done ==> Valid() && Sub(states, old(states)) && Contents() == old(Contents()) - {t.name}
    {
      SubLess(states, t.name);
      hide Valid, Contents, Sub;
      if t == state0 || t.inTree || t.inSubq || t.subq != {} { return Failed; }
      Free(t);
      v := Done;
    }

    /** `dmsg_state_drop`; the last reference frees the state. */
    method DropState(t: State) returns (v: Verdict)
      requires Valid() && Alloc(t)
      modifies t`refs, this`states
      ensures Did(v, Drop(old(Now()), t.name), Now()) && v != Thrown
      ensures v == Done ==> Valid() && Sub(states, old(states))
    {
      Holds(t);
      RootName(t);
      t.SubqEmpty();
      SubSelf(states);
      hide Valid, Contents, Sub, NamesOf, Drop;
      ghost var was := Now();
      if t.refs <= 0 {
        DropIs(was, t.name);
        return Failed;
      }
      Count(t, -1);
      v := Done;
      if t.refs == 0 {
        v := FreeLast(t);
      }
      Dropped(was, t.name, Now(), v == Done);
    }

    /** The part of `dmsg_subq_delete` that takes the state off the queue. */
    method Unqueue(t: State, p: State)
      requires Valid() && Alloc(t) && Alloc(p) && t != p
      modifies t`inSubq, p`subq
      ensures Valid() && Contents() == Dequeued(old(Contents()), t.name, p.name) && (Contents()[p.name].subq == {} <==> p.subq == {})
    {
      ghost var was := Contents();
      OtherNames(t);
      OtherNames(p);
      SubqWithout(p, t);
      hide KnownTree, KnownQueue, KnownSeq, Named;
      t.inSubq := false;
      OneChanged(was, t);
      ghost var mid := Contents();
      p.subq := p.subq - {t};
      OneChanged(mid, p);
      p.SubqEmpty();
    }

    lemma SubqWithout(p: State, t: State)
      requires Valid() && Alloc(t) && Alloc(p)
      ensures NamesOf(p.subq - {t}) == NamesOf(p.subq) - {t.name}
    {
      forall c | c in p.subq && c.name == t.name ensures c == t {
        assert c in states[p.name].subq;
      }
    }

    /** The rest of it: an empty queue lets go of its owner, and the state loses a reference. */
    method Release(t: State, p: State) returns (v: Verdict)
      requires Valid() && Alloc(t) && Alloc(p) && t != p
      modifies this`states, t`refs, p`refs
      ensures t.name in old(Now()).states && p.name in old(Now()).states && Did(v, Released(old(Now()), t.name, p.name), Now())
      ensures v != Thrown
      ensures v == Done ==> Valid() && Sub(states, old(states))
    {
      Holds(t);
      Holds(p);
      p.SubqEmpty();
      DropOther(Now(), p.name, t.name);
      SubSelf(states);
      hide Valid, Drop, Contents, Sub;
      ghost var was := states;
      if p.subq == {} {
        v := DropState(p);
        if v != Done { return; }
        StillAlloc(t, was);
      }
      ghost var mid := states;
      v := DropState(t);
      if v == Done { SubTrans(states, mid, was); }
    }

    /** `dmsg_subq_delete`. */
    method SubqRemove(t: State) returns (v: Verdict)
      requires Valid() && Alloc(t) && t != state0 && (t.inSubq ==> t.parent != null && Alloc(t.parent) && t.parent != t)
      modifies this`states, states.Values
      ensures Did(v, SubqDelete(old(Now()), t.name), Now())
      ensures v != Thrown
      ensures v == Done ==> Valid() && Sub(states, old(states))
    {
      RootName(t);
      Holds(t);
      hide Contents, Drop, Released;
      if !t.inSubq { return Done; }
      ParentName(t);
      Holds(t.parent);
      SubqDeleteIs(Now(), t.name);
      hide Valid, Sub, SubqDelete;
      Unqueue(t, t.parent);
      v := Release(t, t.parent);
    }

    lemma ParentName(t: State)
      requires Valid() && Alloc(t) && t.parent != null
      ensures t.name.Name? ==> t.parent.name == t.name.parent && t.msgid == t.name.id
    {}

    /** The state leaves the tree of the side that opened it. */
    method TreeDelete(t: State, opposite: bool) returns (v: Verdict)
      requires Valid() && Alloc(t) && t != state0
      modifies t`inTree, this`statewr, this`staterd
      ensures Did(v, TreeRemove(old(Now()), t.name, opposite), Now())
      ensures v != Thrown
      ensures v == Done ==> Valid()
    {
      if !t.inTree { return Failed; }
      ghost var was := Contents();
      RootName(t);
      OtherNames(t);
      MsgidName(t);
      if opposite {
        TreeWithout(staterd, t.msgid);
        staterd := staterd - {t.msgid};
      } else {
        TreeWithout(statewr, t.msgid);
        statewr := statewr - {t.msgid};
      }
      hide KnownTree, KnownQueue, KnownSeq, Named;
      t.inTree := false;
      OneChanged(was, t);
      v := Done;
    }

    lemma AllocParent(t: State)
      requires Valid() && Alloc(t) && t.name.Name?
      ensures t.parent != null && t.parent.name == t.name.parent && (t.name.parent in states ==> Alloc(t.parent))
    {}

    lemma StillAlloc(t: State, was: map<Name, State>)
      requires Sub(states, was) && t.name in was && was[t.name] == t && t.name in Contents()
      ensures Alloc(t)
    {
      assert t.name in states;
    }

    lemma MsgidName(t: State)
      requires Valid() && Alloc(t) && t != state0
      ensures t.name.Name? && t.msgid == t.name.id
    {}

    lemma TreeWithout(tree: map<nat, State>, id: nat)
      ensures Ids(tree - {id}) == Ids(tree) - {id} && (KnownTree(states, tree) ==> KnownTree(states, tree - {id}))
    {}

    /** No structure, allocated or only pointed to, has the name. */
    ghost predicate Unused(name: Name)
      reads this, states.Values
    {
      && name.Name? && name !in states && name !in Names(cur) && UnusedIn(name, Ids(statewr)) && UnusedIn(name, Ids(staterd))
      && (forall i {:trigger txmsgq[i]} :: 0 <= i < |txmsgq| ==> txmsgq[i].state.name != name)
      && (forall n {:trigger states[n]} :: n in states && n.Name? ==> n.parent != name)
      && forall n, c {:trigger c in states[n].subq} :: n in states && c in states[n].subq ==> c.name != name
    }

    /** A new structure is allocated. */
    method Allocate(t: State)
      requires Valid() && Unused(t.name) && t.subq == {} && t.msgid == t.name.id && t.opposite == (t.name.side != me)
      requires t.parent != null && Alloc(t.parent) && t.parent.name == t.name.parent
      modifies this`states
      ensures Valid() && states == old(states)[t.name := t] && Contents() == old(Contents())[t.name := t.Now()]
    {
      ghost var was := Contents();
      KnownMore(me, state0, states, t);
      KnownLists(t);
      NoneOnQueue(t);
      hide KnownTree, KnownQueue, KnownSeq, Named;
      states := states[t.name := t];
      Updated(was[t.name := t.Now()], Contents(), t.name);
    }

    lemma NoneOnQueue(t: State)
      requires Unused(t.name) && t.subq == {}
      ensures forall n, c {:trigger c in states[n].subq} :: n in states && c in states[n].subq ==> c.name != t.name
    {}

    /** It goes on its parent's queue. */
    method Enqueue(t: State, p: State)
      requires Valid() && Alloc(t) && Alloc(p) && t != p
      modifies p`subq
      ensures Valid() && p.name in old(Contents())
      ensures Contents() == old(Contents())[p.name := old(p.Now()).(subq := old(p.Now()).subq + {t.name})]
    {
      ghost var was := Contents();
      OtherNames(p);
      assert NamesOf(p.subq + {t}) == NamesOf(p.subq) + {t.name};
      hide KnownTree, KnownQueue, KnownSeq, Named;
      p.subq := p.subq + {t};
      OneChanged(was, p);
    }

    /** An empty queue is about to get its first entry, which holds its owner. */
    method HoldOwner(p: State)
      requires Valid() && Alloc(p)
      modifies p`refs
      ensures Valid() && p.name in old(Contents()) && forall n {:trigger Unused(n)} :: old(Unused(n)) ==> Unused(n)
      ensures var r := old(Contents())[p.name];
        Contents() == old(Contents())[p.name := r.(refs := if r.subq == {} then r.refs + 1 else r.refs)]
    {
      Holds(p);
      p.SubqEmpty();
      hide Contents, Valid;
      if p.subq == {} {
        Count(p, 1);
      }
      assert Contents() == old(Contents())[p.name := Contents()[p.name]];
    }

    /** The structure of a new transaction, in no tree and on no queue yet. */
    method MakeState(ghost name: Name, id: nat, p: State, mine: bool, tx: Cmd, rx: Cmd) returns (t: State)
      requires Valid() && Alloc(p) && Unused(name) && name.parent == p.name && name.id == id && mine == (name.side == me)
      modifies this`states
      ensures Valid() && states == old(states)[name := t] && t.name == name && t.msgid == id && t != p && t != state0 && fresh(t)
      ensures Contents() == old(Contents())[name := St(tx, rx, true, true, {}, 3)]
    {
      hide Valid, Contents, NamesOf, Unused;
      t := new State(name, id, p, !mine, tx, rx);
      t.refs, t.inTree, t.inSubq := 3, true, true;
      NoNames();
      Allocate(t);
    }

    /** The state goes into a tree, where its msgid must be free. */
    method TreeInsert(t: State, mine: bool) returns (v: Verdict)
      requires Valid() && Alloc(t)
      modifies this`statewr, this`staterd
      ensures Valid() && v != Thrown && (v == Failed <==> t.msgid in old(if mine then Ids(statewr) else Ids(staterd)))
      ensures v == Done && mine ==> Now() == old(Now()).(statewr := old(Now()).statewr[t.msgid := t.name])
      ensures v == Done && !mine ==> Now() == old(Now()).(staterd := old(Now()).staterd[t.msgid := t.name])
    {
      hide Contents, KnownSubqs, Named, KnownQueue, KnownSeq;
      if t.msgid in if mine then statewr else staterd { return Failed; }
      if mine {
        statewr := statewr[t.msgid := t];
        assert Ids(statewr) == Ids(old(statewr))[t.msgid := t.name];
      } else {
        staterd := staterd[t.msgid := t];
        assert Ids(staterd) == Ids(old(staterd))[t.msgid := t.name];
      }
      v := Done;
    }

    /** A new state on its parent's queue, in no tree yet. */
    method NewState(ghost name: Name, id: nat, p: State, mine: bool, tx: Cmd, rx: Cmd) returns (t: State)
      requires Valid() && Alloc(p) && Unused(name) && name.parent == p.name && name.id == id && mine == (name.side == me)
      modifies this`states, p`refs, p`subq
      ensures Valid() && states == old(states)[name := t] && t.name == name && t.msgid == id && t != p && t != state0 && fresh(t)
      ensures p.name in old(Contents()) && Contents() == Stacked(old(Contents()), name, p.name, St(tx, rx, true, true, {}, 3))
    {
      hide Contents, Valid;
      HoldOwner(p);
      t := MakeState(name, id, p, mine, tx, rx);
      hide Unused;
      Holds(p);
      Enqueue(t, p);
    }

    /** A new state goes on its parent's queue and into the tree of its side. */
    method InsertState(ghost name: Name, id: nat, p: State, mine: bool, tx: Cmd, rx: Cmd) returns (v: Verdict, t: State)
      requires Valid() && Alloc(p) && Unused(name) && name.parent == p.name && name.id == id && mine == (name.side == me)
      modifies this`states, this`statewr, this`staterd, p`refs, p`subq
      ensures Did(v, Insert(old(Now()), name, St(tx, rx, true, true, {}, 0)), Now())
      ensures v != Thrown
      ensures v == Done ==> Valid() && states == old(states)[name := t] && t.name == name && t != p && t != state0 && fresh(t)
    {
      Holds(p);
      InsertIs(Now(), name, St(tx, rx, true, true, {}, 0));
      hide Contents, Insert, Valid, Stacked;
      t := NewState(name, id, p, mine, tx, rx);
      v := TreeInsert(t, mine);
    }

    /** `dmsg_msg_alloc` with CREATE: a new transaction stacked under that of `p`. */
    method AllocCreate(p: State, ghost serial: nat, id: nat) returns (t: State)
      requires Valid() && Sound(Now()) && Alloc(p) && id !in statewr && Unused(Name(me, serial, id, p.name))
      modifies this`states, this`statewr, this`staterd, p`refs, p`subq
      ensures Valid() && Sound(Now()) && Alloc(t) && t.name == Name(me, serial, id, p.name)
      ensures Open(old(Now()), p.name, serial, id) == Ok(Now())
    {
      Holds(p);
      OpenOk(Now(), p.name, serial, id);
      hide Contents, Valid, Sound, Insert;
      var v;
      v, t := InsertState(Name(me, serial, id, p.name), id, p, true, Cmd(false, false, false), Cmd(false, false, true));
    }

    /** The command bits of a state. */
    method SetCmds(t: State, tx: Cmd, rx: Cmd)
      requires Valid() && Alloc(t)
      modifies t`txcmd, t`rxcmd
      ensures Valid() && t.name in old(Contents()) && Contents() == old(Contents())[t.name := old(Contents())[t.name].(tx := tx, rx := rx)]
      ensures t.txcmd == tx && t.rxcmd == rx
    {
      Holds(t);
      ghost var was := Contents();
      OtherNames(t);
      hide KnownTree, KnownQueue, KnownSeq, Named;
      t.txcmd, t.rxcmd := tx, rx;
      OneChanged(was, t);
    }

    /** Both directions are closed: the state leaves its tree and its parent's queue. */
    method Unhook(t: State, opposite: bool)
      requires Valid() && Alloc(t) && t != state0
      requires t.name in Now().states && t.name.Name? && Unhooked(Now(), t.name, opposite).Ok?
      modifies this`states, this`statewr, this`staterd, states.Values
      ensures Valid() && Unhooked(old(Now()), t.name, opposite) == Ok(Now()) && Sub(states, old(states))
    {
      hide Valid, Contents, TreeRemove, SubqDelete, Drop, Sub;
      ghost var e := Now();
      UnhookedOk(e, t.name, opposite);
      AllocParent(t);
      Holds(t);
      var v := TreeDelete(t, opposite);
      Holds(t);
      ghost var mid := states;
      v := SubqRemove(t);
      StillAlloc(t, mid);
      ghost var mid2 := states;
      v := DropState(t);
      SubTrans(states, mid2, mid);
    }

    /** The transmit direction is closed by this message, or it is not. */
    method CloseTx(t: State, cmd: Cmd)
      requires Valid() && Alloc(t) && t.name in Now().states && ClosedTx(Now(), t.name, cmd).Ok?
      modifies this`states, this`statewr, this`staterd, states.Values
      ensures Valid() && ClosedTx(old(Now()), t.name, cmd) == Ok(Now()) && Sub(states, old(states))
    {
      Holds(t);
      RootName(t);
      SubSelf(states);
      hide Valid, Contents, Unhooked, Sub;
      if t != state0 && cmd.del && !t.txcmd.del {
        SetCmds(t, t.txcmd.(del := true), t.rxcmd);
        if t.rxcmd.del {
          Unhook(t, t.txcmd.reply);
        }
      }
    }

    /** `dmsg_state_cleanuptx`. */
    method CleanTx(t: State, cmd: Cmd)
      requires Valid() && Alloc(t) && t.name in Now().states && CleanupTx(Now(), t.name, cmd).Ok?
      modifies this`states, this`statewr, this`staterd, states.Values
      ensures Valid() && CleanupTx(old(Now()), t.name, cmd) == Ok(Now()) && Sub(states, old(states))
    {
      Holds(t);
      CleanupTxIs(Now(), t.name, cmd);
      hide Valid, Contents, CleanupTx, ClosedTx, Drop, Sub;
      ghost var was := states;
      HoldState(t);
      Holds(t);
      CloseTx(t, cmd);
      ghost var mid := states;
      StillAlloc(t, was);
      var v := DropState(t);
      SubTrans(states, mid, was);
    }

    /** The header of a message on a state. */
    method MakeHeader(t: State, cmd: Cmd) returns (h: Head)
      requires Valid() && Alloc(t)
      ensures MsgFrom(t.name, h) == Header(Now(), t.name, cmd)
    {
      HeaderIs(t, cmd);
      var p := if t.parent == null then state0 else t.parent;
      h := Head(cmd, t.msgid, p.msgid, t.opposite, p.opposite);
    }

    /** `dmsg_msg_write`. */
    method MsgWrite(t: State, cmd: Cmd)
      requires Valid() && Alloc(t) && Write(Now(), t.name, cmd).Ok?
      modifies this`states, this`statewr, this`staterd, this`txmsgq, states.Values
      ensures Valid() && Write(old(Now()), t.name, cmd) == Ok(Now()) && Sub(states, old(states))
    {
      Holds(t);
      RootName(t);
      WriteIs(Now(), t.name, cmd);
      hide Valid, Contents, Write, CleanupTx, Drop, Sub, Header;
      var h := MakeHeader(t, cmd);
      SubSelf(states);
      if t != state0 && cmd.create {
        SetCmds(t, cmd.(del := false), t.rxcmd);
      }
      Holds(t);
      hide CleanupTx;
      if t.txcmd.del {
        var v := DropState(t);
      } else {
        Post(t, cmd, h);
      }
    }

    /** The transmit cleanup, and the message goes on the queue. */
    method Post(t: State, cmd: Cmd, h: Head)
      requires Valid() && Alloc(t) && t.name in Now().states && CleanupTx(Now(), t.name, cmd).Ok?
      modifies this`states, this`statewr, this`staterd, this`txmsgq, states.Values
      ensures Valid() && Sub(states, old(states))
      ensures var e := CleanupTx(old(Now()), t.name, cmd).value; Now() == e.(txmsgq := e.txmsgq + [MsgFrom(t.name, h)])
    {
      ghost var was := states;
      hide Valid, Contents, CleanupTx, Sub;
      CleanTx(t, cmd);
      Append(t, h, was);
    }

    /** A message goes to the end of the queue. */
    method Append(t: State, h: Head, ghost was: map<Name, State>)
      requires Valid() && Sub(states, was) && t.name in was && was[t.name] == t
      modifies this`txmsgq
      ensures Valid() && Now() == old(Now()).(txmsgq := old(Now()).txmsgq + [MsgFrom(t.name, h)])
    {
      hide Contents, KnownTree, KnownSeq, Named, KnownSubqs;
      txmsgq := txmsgq + [Entry(t, h)];
      assert Heads(txmsgq) == Heads(old(txmsgq)) + [MsgFrom(t.name, h)];
    }

    lemma HeaderIs(t: State, cmd: Cmd)
      requires Valid() && Alloc(t)
      ensures WellNamed(me, t) && WellNamed(me, state0) && state0.name == Root
      ensures if t.parent == null then t.name == Root && t == state0
              else t.name.Name? && t.parent.name == t.name.parent && WellNamed(me, t.parent)
    {}

    /** `dmsg_msg_reply` and `dmsg_msg_result`. */
    method Reply(t: State, del: bool)
      requires Valid() && Sound(Now()) && Alloc(t) && t != state0
      modifies this`states, this`statewr, this`staterd, this`txmsgq, states.Values
      ensures Valid() && Sound(Now()) && Send(old(Now()), t.name, del) == Ok(Now()) && Sub(states, old(states))
    {
      Holds(t);
      MsgidName(t);
      SubSelf(states);
      SendOk(Now(), t.name, del);
      SendIs(Now(), t.name, del);
      MineIs(t);
      hide Valid, Contents, Sound, Write, Sub, Send;
      if !t.txcmd.del {
        var cmd := Cmd(!t.txcmd.create, del, t.txcmd.reply);
        if t.opposite || t.txcmd.create || !t.inTree {
          HoldState(t);
        }
        MsgWrite(t, cmd);
      }
    }

    lemma MineIs(t: State)
      requires Valid() && Alloc(t) && t != state0
      ensures t.opposite == (t.name.side != me)
    {}

    /** The first message leaves the queue. */
    method TakeFirst() returns (first: Entry)
      requires Valid() && txmsgq != []
      modifies this`txmsgq
      ensures Valid() && Known(states, first.state) && old(txmsgq) == [first] + txmsgq
      ensures |old(Now()).txmsgq| > 0 && old(Now()).txmsgq[0].ref == first.state.name
      ensures Now() == old(Now()).(txmsgq := old(Now()).txmsgq[1..])
    {
      hide Contents, KnownTree, KnownSeq, Named, KnownSubqs;
      QueueTail(txmsgq);
      first := txmsgq[0];
      assert Heads(txmsgq)[0].ref == first.state.name;
      txmsgq := txmsgq[1..];
    }

    /** The I/O thread frees the first message after sending it. */
    method FlushFirst() returns (sent: seq<Entry>)
      requires Valid() && Sound(Now())
      modifies this`txmsgq, this`states, states.Values
      ensures Valid() && Sound(Now()) && Flush(old(Now())) == Ok(Now()) && Sub(states, old(states))
      ensures sent + txmsgq == old(txmsgq) && |sent| == (if old(txmsgq) == [] then 0 else 1)
    {
      SubSelf(states);
      FlushOk(Now());
      HeadsEmpty(txmsgq);
      hide Valid, Sound, Drop, Contents, Sub;
      sent := [];
      if txmsgq != [] {
        var first := TakeFirst();
        sent := [first];
        AllocFirst(first.state);
        FlushIs(old(Now()), Now());
        var v := DropState(first.state);
      }
    }

    lemma HeadsEmpty(q: seq<Entry>)
      ensures q == [] <==> Heads(q) == []
    {}

    lemma AllocFirst(t: State)
      requires Known(states, t)
      ensures t.name in Contents() ==> Alloc(t)
    {}

    lemma QueueTail(q: seq<Entry>)
      requires q != []
      ensures Heads(q[1..]) == Heads(q)[1..] && (KnownQueue(states, q) ==> KnownQueue(states, q[1..]))
    {}

    /** A message is being processed: the state stays in hand. */
    method Process(t: State)
      requires Valid() && Known(states, t)
      modifies this`cur
      ensures Valid() && Now() == old(Now()).(cur := old(Now()).cur + [t.name])
    {
      hide Contents, KnownTree, KnownQueue, Named, KnownSubqs;
      cur := cur + [t];
      assert Names(cur) == Names(old(cur)) + [t.name];
    }

    /** DELETE closes the receive direction. */
    method ReceiveDelete(t: State, cmd: Cmd) returns (v: Verdict)
      requires Valid() && Alloc(t) && t != state0
      modifies this`states, this`statewr, this`staterd, t
      ensures t.name in old(Now()).states && t.name.Name? && Did(v, DeletedRx(old(Now()), t.name, cmd), Now())
      ensures v != Thrown
      ensures v == Done ==> Valid() && Known(states, t)
    {
      Holds(t);
      MsgidName(t);
      hide Valid, Contents, TreeRemove, Drop;
      if t.rxcmd.del { return Failed; }
      SetCmds(t, t.txcmd, t.rxcmd.(del := true));
      if t.txcmd.del {
        if t.rxcmd.reply != cmd.reply { return Failed; }
        v := TreeDelete(t, !t.rxcmd.reply);
        if v != Done { return; }
        v := DropState(t);
        return;
      }
      v := Done;
    }

    /** The part of `dmsg_state_msgrx` behind its switch. */
    method CloseRx(t: State, cmd: Cmd) returns (v: Verdict)
      requires Valid() && Alloc(t) && t != state0
      modifies this`states, this`statewr, this`staterd, this`cur, t
      ensures t.name in old(Now()).states && t.name.Name? && Did(v, RxDelete(old(Now()), t.name, cmd), Now())
      ensures v != Thrown
      ensures v == Done ==> Valid()
    {
      Holds(t);
      MsgidName(t);
      RxDeleteIs(Now(), t.name, cmd);
      hide Valid, Contents, DeletedRx, RxDelete;
      if cmd.del {
        v := ReceiveDelete(t, cmd);
        if v != Done { return; }
      }
      Process(t);
      v := Done;
    }

    /** A message over an existing transaction. */
    method RxOld(t: State, cmd: Cmd) returns (v: Verdict)
      requires Valid() && Alloc(t) && t != state0
      modifies this`states, this`statewr, this`staterd, this`cur, t
      ensures t.name in old(Now()).states && t.name.Name? && Did(v, RxKnown(old(Now()), t.name, cmd), Now())
      ensures v != Thrown
      ensures v == Done ==> Valid()
    {
      Holds(t);
      MsgidName(t);
      hide Valid, Contents, RxDelete;
      if cmd.create {
        if !cmd.reply || t.rxcmd.reply != cmd.reply { return Failed; }
        SetCmds(t, t.txcmd, cmd.(del := false));
      } else if cmd.del && !t.rxcmd.create {
        return Failed;
      }
      v := CloseRx(t, cmd);
    }

    /** A message that opens a transaction. */
    method RxCreate(p: State, ghost name: Name, h: Head) returns (v: Verdict)
      requires Valid() && Alloc(p) && Unused(name) && name.side == Other(me) && name.id == h.id && name.parent == p.name
      modifies this`states, this`statewr, this`staterd, this`cur, p`refs, p`subq
      ensures Did(v, CreatedBy(old(Now()), p.name, name, h.cmd), Now())
      ensures v != Thrown
      ensures v == Done ==> Valid()
    {
      Holds(p);
      hide Valid, Contents, Unused, Insert, RxDelete, Hold;
      HoldState(p);
      var t;
      v, t := InsertState(name, h.id, p, false, Cmd(false, false, true), h.cmd.(del := false));
      if v != Done { return; }
      v := CloseRx(t, h.cmd);
    }

    /** A message of no known transaction: it opens one, or is outside of any. */
    method RxNew(p: State, ghost ref: Name, h: Head) returns (v: Verdict)
      requires Valid() && Alloc(p)
      requires h.cmd.create && !h.cmd.reply ==> Unused(Name(Other(me), Serial(ref), h.id, p.name))
      modifies this`states, this`statewr, this`staterd, this`cur, p`refs, p`subq
      ensures Did(v, RxUnknown(old(Now()), p.name, MsgFrom(ref, h)), Now())
      ensures v != Thrown
      ensures v == Done ==> Valid()
    {
      Holds(p);
      RootName(p);
      RxUnknownIs(Now(), p.name, MsgFrom(ref, h));
      hide Valid, Contents, Unused, CreatedBy, RxUnknown;
      if h.cmd.create && !h.cmd.reply {
        v := RxCreate(p, Name(Other(me), Serial(ref), h.id, p.name), h);
      } else if h.cmd.create || h.cmd.del || p != state0 {
        v := Failed;
      } else {
        RootKnown();
        Process(state0);
        v := Done;
      }
    }

    lemma RootKnown()
      requires Valid()
      ensures Known(states, state0) && state0.name == Root
    {}

    /** `dmsg_state_msgrx`.  The trees are searched in place; whatever arrives, references and
        trees stay sound unless an assertion on the message's own bits fails.  `ref` is the peer's
        name for a transaction that the message opens. */
    method StateMsgRx(ghost ref: Name, h: Head) returns (v: Verdict)
      requires Valid() && Sound(Now()) && MayName(ref, h)
      modifies this`states, this`statewr, this`staterd, this`cur, states.Values
      ensures Did(v, MsgRx(old(Now()), MsgFrom(ref, h)), Now()) && (v != Failed ==> Valid() && Sound(Now()))
      ensures v == Thrown <==> NoCircuit(old(Now()), MsgFrom(ref, h))
      ensures v == Done <==> !NoCircuit(old(Now()), MsgFrom(ref, h)) && Fits(old(Now()), MsgFrom(ref, h))
    {
      hide Valid, Sound, NoCircuit, Fits, TakenIn, MsgRx, Alive, MayName;
      MsgRxOk(Now(), MsgFrom(ref, h));
      v := Dispatch(ref, h);
    }

    /** The structure of the peer is not one that is in use for another transaction. */
    ghost predicate MayName(ref: Name, h: Head)
      reads this, states.Values
    {
      var m := MsgFrom(ref, h);
      FindState(Now(), m) == Root && h.cmd.create && !h.cmd.reply ==>
        Unused(Name(Other(me), Serial(ref), h.id, FindCircuit(Now(), m)))
    }

    /** Find a state in one of the trees. */
    method Lookup(ours: bool, id: nat) returns (t: State?)
      requires Valid() && Sound(Now())
      ensures if t == null then Find(if ours then Now().statewr else Now().staterd, id) == Root
              else Alloc(t) && t != state0 && t.name.Name? && Find(if ours then Now().statewr else Now().staterd, id) == t.name
    {
      TreeAlloc(ours, id);
      var tree := if ours then statewr else staterd;
      t := if id in tree then tree[id] else null;
    }

    lemma TreeAlloc(ours: bool, id: nat)
      requires Valid() && Sound(Now())
      ensures var tree := if ours then statewr else staterd;
        id in tree ==> Alloc(tree[id]) && tree[id] != state0 && tree[id].name.Name?
    {
      var tree := if ours then statewr else staterd;
      if id in tree {
        var side := if ours then me else Other(me);
        assert Ids(tree)[id] == tree[id].name;
        TreeThere(Now(), ours, id);
      }
    }

    /** A message of a known transaction: it must be on its parent's queue. */
    method RxFound(p: State, t: State, cmd: Cmd) returns (v: Verdict)
      requires Valid() && Alloc(state0) && Alloc(p) && Alloc(t) && t != state0
      modifies this`states, this`statewr, this`staterd, this`cur, t, state0`refs
      ensures t.name.Name? && Did(v, Found(old(Now()), p.name, t.name, cmd), Now())
      ensures v != Thrown
      ensures v == Done ==> Valid()
    {
      MsgidName(t);
      SameParent(p, t);
      RootName(state0);
      Holds(t);
      DropOther(Now(), Root, t.name);
      hide Valid, Contents, Drop, HeldBy;
      ghost var was := states;
      v := DropState(state0);
      if v != Done { return; }
      StillAlloc(t, was);
      v := RxHeld(p, t, cmd);
    }

    /** Its state is held instead of the root. */
    method RxHeld(p: State, t: State, cmd: Cmd) returns (v: Verdict)
      requires Valid() && Alloc(t) && t != state0 && (p == t.parent <==> p.name == t.name.parent)
      modifies this`states, this`statewr, this`staterd, this`cur, t
      ensures t.name.Name? && Did(v, HeldBy(old(Now()), p.name, t.name, cmd), Now())
      ensures v != Thrown
      ensures v == Done ==> Valid()
    {
      MsgidName(t);
      Holds(t);
      hide Valid, Contents, RxKnown;
      HoldState(t);
      Holds(t);
      if !t.inSubq || p != t.parent { return Failed; }
      v := RxOld(t, cmd);
    }

    lemma SameParent(p: State, t: State)
      requires Valid() && Alloc(p) && Alloc(t) && t != state0
      ensures t.name.Name? && (p == t.parent <==> p.name == t.name.parent)
    {}

    /** The circuit of a message: the root, or a state of one of the trees, if it is there. */
    method FindParent(ghost ref: Name, h: Head) returns (p: State?)
      requires Valid() && Sound(Now())
      ensures p == null <==> NoCircuit(Now(), MsgFrom(ref, h))
      ensures p != null ==> Alloc(p) && p.name == FindCircuit(Now(), MsgFrom(ref, h))
    {
      RootAlloc();
      hide Valid, Sound, Contents;
      if h.circuit == 0 { return state0; }
      p := Lookup(h.revcirc, h.circuit);
    }

    method Dispatch(ghost ref: Name, h: Head) returns (v: Verdict)
      requires Valid() && Sound(Now()) && MayName(ref, h)
      modifies this`states, this`statewr, this`staterd, this`cur, states.Values
      ensures Did(v, MsgRx(old(Now()), MsgFrom(ref, h)), Now())
      ensures v == Done || v == Thrown ==> Valid()
    {
      hide Valid, Found, RxUnknown, Sound, Drop, MsgRx, Unused, NoCircuit, FindCircuit, Contents;
      ghost var e, m := Now(), MsgFrom(ref, h);
      RootAlloc();
      Holds(state0);
      MsgRxIs(e, m);
      var p := FindParent(ref, h);
      var state := Lookup(h.revtrans, h.id);
      HoldState(state0);
      if p == null {
        v := DropState(state0);
        return if v == Done then Thrown else Failed;
      }
      if state == null {
        v := RxNew(p, ref, h);
      } else {
        v := RxFound(p, state, h.cmd);
      }
    }

    lemma RootAlloc()
      requires Valid() && Sound(Now())
      ensures Alloc(state0) && state0.name == Root
    {
      RootThere(Now(), NONE);
    }

    /** `dmsg_state_cleanuprx`, once the callback has returned. */
    method CleanRx()
      requires Valid() && Sound(Now())
      modifies this`cur, this`states, states.Values
      ensures Valid() && Sound(Now()) && CleanupRx(old(Now())) == Ok(Now()) && Sub(states, old(states))
    {
      SubSelf(states);
      CleanupRxOk(Now());
      NamesEmpty(cur);
      hide Valid, Sound, Contents, Sub, SubqDelete, Drop;
      if cur != [] {
        var t := NextCur();
        CleanupRxIs(old(Now()), Now());
        AllocFirst(t);
        Holds(t);
        RootName(t);
        ghost var was := states;
        if t != state0 && t.inSubq && t.rxcmd.del && t.txcmd.del {
          AllocParent(t);
          var v := SubqRemove(t);
          StillAlloc(t, was);
        }
        ghost var mid := states;
        var v := DropState(t);
        SubTrans(states, mid, was);
      }
    }

    /** The message that was taken in first. */
    method NextCur() returns (t: State)
      requires Valid() && cur != []
      modifies this`cur
      ensures Valid() && Known(states, t) && |old(Now()).cur| > 0 && old(Now()).cur[0] == t.name
      ensures Now() == old(Now()).(cur := old(Now()).cur[1..])
    {
      hide Contents, KnownTree, KnownQueue, Named, KnownSubqs;
      t := cur[0];
      assert Names(cur)[0] == t.name && Names(cur[1..]) == Names(cur)[1..];
      cur := cur[1..];
    }

    lemma NamesEmpty(q: seq<State>)
      ensures q == [] <==> Names(q) == []
    {}

    lemma KnownLists(t: State)
      requires Valid() && Unused(t.name)
      ensures KnownTree(states[t.name := t], statewr) && KnownTree(states[t.name := t], staterd)
      ensures KnownQueue(states[t.name := t], txmsgq) && KnownSeq(states[t.name := t], cur)
    {
      forall i {:trigger statewr[i]} | i in statewr ensures statewr[i].name != t.name {
        assert Ids(statewr)[i] == statewr[i].name;
      }
      forall i {:trigger staterd[i]} | i in staterd ensures staterd[i].name != t.name {
        assert Ids(staterd)[i] == staterd[i].name;
      }
      forall i {:trigger cur[i]} | 0 <= i < |cur| ensures cur[i].name != t.name {
        assert Names(cur)[i] == cur[i].name;
      }
    }
  }
}
